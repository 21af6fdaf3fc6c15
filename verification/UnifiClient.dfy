/**
The UniFi client as the stateful object it is: caches updated in place, one request at a time.
Each method is proved to do exactly what the protocol functions say.
*/
module UnifiClient {
  import opened Models
  import opened Codec
  import opened Controller
  import opened Protocol
  import opened Paging
  import opened Safety
  import opened Snapshot
  import opened CardIndex
  import opened Cycle

  /** The controller behind its API: its state, the faults to come, and everything it was asked. */
  class Remote {
    const faults: Faults
    const listing: seq<UserRow>
    var ctl: State
    var sent: nat
    ghost var log: seq<Event>

    constructor (c: State, f: Faults, rows: seq<UserRow>)
      ensures Valid() && ctl == c && faults == f && listing == rows && log == []
    {
      ctl, faults, listing, sent, log := c, f, rows, 0, [];
    }

    ghost predicate Valid() reads this {
      sent == |log|
    }

    method Ask(r: Request) returns (reply: Reply)
      requires Valid()
      modifies this
      ensures Valid()
      ensures ctl == Deliver(faults(|old(log)|), old(ctl), r).0
      ensures reply == Deliver(faults(|old(log)|), old(ctl), r).1
      ensures log == old(log) + [Event(r, old(ctl), reply)]
    {
      var fault := faults(sent);
      ghost var before := ctl;
      if fault.Refuse? {
        reply := Failed(fault.code);
      } else {
        if fault.Resend? {
          DeliverIsResending(fault.more, fault.answered, ctl, r);
        }
        reply := SendUntilAnswered(r, if fault.Resend? then fault.more + 1 else 0);
        if fault.Lose? || (fault.Resend? && !fault.answered) {
          reply := Failed(None);
        }
      }
      log := log + [Event(r, before, reply)];
      sent := sent + 1;
    }

    /** The retry loop: the request is carried out, and again each time its answer was lost. */
    method SendUntilAnswered(r: Request, lost: nat) returns (reply: Reply)
      modifies this`ctl
      ensures (ctl, reply) == Resent(old(ctl), r, lost)
    {
      var answer := Exec(ctl, r);
      ctl, reply := answer.0, answer.1;
      for i := 0 to lost
        invariant (ctl, reply) == Resent(old(ctl), r, i)
      {
        answer := Again(ctl, r, reply);
        ctl, reply := answer.0, answer.1;
      }
    }
  }

  class Client {
    const remote: Remote
    const config: Config
    const dryRun: bool
    var userIds: map<ContactId, UserId>
    var cards: map<ContactId, seq<Token>>
    var tokenMap: Option<map<CardId, Token>>
    var cardOf: map<Token, CardId>
    var holders: map<Token, Holder>
    var failures: seq<ContactId>
    var fetched: bool

    constructor (r: Remote, c: Config, dry: bool)
      requires r.Valid()
      ensures Valid() && remote == r && config == c && dryRun == dry && !fetched
      ensures View() == Session(r.ctl, r.log, NO_CACHE, [])
    {
      remote, config, dryRun := r, c, dry;
      userIds, cards, tokenMap, cardOf, holders := map[], map[], None, map[], map[];
      failures, fetched := [], false;
    }

    ghost predicate Valid() reads this, remote {
      remote.Valid()
    }

    ghost function View(): Session reads this, remote {
      Session(remote.ctl, remote.log, Cache(userIds, cards, tokenMap, cardOf, holders), failures)
    }

    // ---- one request ----

    method Ask(r: Request) returns (reply: Reply)
      requires Valid()
      modifies remote
      ensures Valid()
      ensures (View(), reply) == Send(remote.faults, old(View()), r)
    {
      reply := remote.Ask(r);
    }

    method CallRemote(r: Request) returns (out: Outcome)
      requires Valid()
      modifies remote
      ensures Valid()
      ensures Step(View(), out) == Call(remote.faults, old(View()), r)
    {
      var reply := Ask(r);
      out := OutcomeOf(reply);
    }

    method RequestUserWrite(target: Option<UserId>, fields: Fields) returns (reply: Reply)
      requires Valid()
      modifies remote
      ensures Valid()
      ensures (View(), reply) == WriteUser(remote.faults, old(View()), target, fields)
    {
      reply := Ask(WriteRequest(target, fields));
      if !reply.Failed? || fields.email.None? || !IsEmailConflict(reply.code) {
        return;
      }
      var rest := fields.(email := None);
      if rest == NOTHING {
        reply := Done;
      } else {
        reply := Ask(WriteRequest(target, rest));
      }
    }

    // ---- cards ----

    method DeleteCardsForContact(u: UserId, k: ContactId, keep: Option<Token>) returns (out: Outcome)
      requires Valid()
      modifies remote
      ensures Valid()
      ensures Step(View(), out) == Sweep(remote.faults, old(View()), u, CachedCards(old(View()).cache, k), keep)
    {
      var tokens := if k in cards then cards[k] else [];
      for i := 0 to |tokens|
        invariant Valid()
        invariant Sweep(remote.faults, old(View()), u, tokens, keep) ==
                  Sweep(remote.faults, View(), u, tokens[i..], keep)
      {
        assert tokens[i..][1..] == tokens[i + 1..];
        if Some(tokens[i]) != keep {
          out := CallRemote(DeleteCard(u, tokens[i]));
          if out.Raised? {
            return;
          }
        }
      }
      out := Fine;
    }

    method ForgetCard(h: Holder, t: Token)
      requires Valid()
      modifies this`cards
      ensures View() == old(View()).(cache := ForgetHolderCard(old(View()).cache, h, t))
    {
      if h.employee.None? || h.employee.value !in cards {
        return;
      }
      var k := h.employee.value;
      var kept: seq<Token> := [];
      for i := 0 to |cards[k]|
        invariant kept == Without(cards[k][..i], t)
      {
        assert cards[k][..i + 1][..i] == cards[k][..i];
        if cards[k][i] != t {
          kept := kept + [cards[k][i]];
        }
      }
      assert cards[k][..|cards[k]|] == cards[k];
      cards := cards[k := kept];
    }

    method BindNfcCard(u: UserId, t: Token) returns (out: Outcome)
      requires Valid()
      modifies remote, this`cards, this`holders
      ensures Valid()
      ensures Step(View(), out) == Bind(remote.faults, old(View()), u, t)
    {
      out := CallRemote(BindCard(u, t, false));
      if out != Raised(Some(CODE_HAS_BIND_USER)) || t !in holders {
        return;
      }
      var h := holders[t];
      if h.user == u || !IsDisabled(h.status) {
        return;
      }
      out := CallRemote(BindCard(u, t, true));
      if out.Fine? {
        holders := holders - {t};
        ForgetCard(h, t);
      }
    }

    method MarkHolderDeactivated(k: ContactId, u: UserId)
      requires Valid()
      modifies this`holders
      ensures View() == old(View()).(cache := MarkDeactivated(old(View()).cache, k, u))
    {
      var tokens := if k in cards then cards[k] else [];
      for i := 0 to |tokens|
        invariant forall t :: t in holders <==> t in old(holders)
        invariant forall t :: t in holders && t in tokens[..i] && old(holders)[t].user == u ==>
                    holders[t] == old(holders)[t].(status := DEACTIVATED)
        invariant forall t :: t in holders && !(t in tokens[..i] && old(holders)[t].user == u) ==>
                  holders[t] == old(holders)[t]
      {
        var t := tokens[i];
        if t in holders && holders[t].user == u {
          holders := holders[t := holders[t].(status := DEACTIVATED)];
        }
        assert tokens[..i + 1] == tokens[..i] + [tokens[i]];
      }
      assert tokens[..|tokens|] == tokens;
    }

    method AttachCardIfSet(u: UserId, card: Option<CardId>) returns (out: Outcome)
      requires Valid()
      modifies remote, this`cards, this`holders
      ensures Valid()
      ensures Step(View(), out) == AttachCard(remote.faults, old(View()), u, card)
    {
      if card.None? {
        return Fine;
      }
      if tokenMap.None? || card.value !in tokenMap.value {
        return Raised(None);
      }
      out := BindNfcCard(u, tokenMap.value[card.value]);
    }

    method AssignPolicyIfSet(u: UserId, policy: Option<string>) returns (out: Outcome)
      requires Valid()
      modifies remote
      ensures Valid()
      ensures Step(View(), out) == AssignPolicy(remote.faults, old(View()), u, policy)
    {
      if policy.None? {
        return Fine;
      }
      out := CallRemote(SetPolicies(u, [policy.value]));
    }

    // ---- the entries of a difference ----

    method DeactivateOne(k: ContactId, u: UserId) returns (out: Outcome)
      requires Valid()
      modifies remote, this`holders
      ensures Valid()
      ensures Step(View(), out) == DeactivateUser(remote.faults, old(View()), k, u)
    {
      var ignored := DeleteCardsForContact(u, k, None);
      out := CallRemote(SetStatus(u, DEACTIVATED));
      if out.Fine? {
        MarkHolderDeactivated(k, u);
      }
    }

    method WriteFields(u: UserId, fields: Fields) returns (out: Outcome)
      requires Valid()
      modifies remote
      ensures Valid()
      ensures Step(View(), out) == WriteRecord(remote.faults, old(View()), u, fields)
    {
      if fields == NOTHING {
        return Fine;
      }
      var reply := RequestUserWrite(Some(u), fields);
      out := OutcomeOf(reply);
    }

    method ApplyOneCredential(p: Pair, u: UserId) returns (out: Outcome)
      requires Valid() && (p.member.name != "" || p.user.name == "")
      modifies remote, this`cards, this`holders
      ensures Valid()
      ensures Step(View(), out) == UpdateCredential(remote.faults, old(View()), p, u)
    {
      out := WriteFields(u, CredentialFields(p.member, p.user));
      if out.Raised? || p.member.card == p.user.card {
        return;
      }
      out := DeleteCardsForContact(u, p.member.contact, None);
      if out.Fine? {
        out := AttachCardIfSet(u, p.member.card);
      }
    }

    method ReactivateOne(r: ResolvedMember, u: UserId) returns (out: Outcome)
      requires Valid() && r.name != ""
      modifies remote, this`cards, this`holders
      ensures Valid()
      ensures Step(View(), out) == Reactivate(remote.faults, old(View()), r, u)
    {
      out := WriteFields(u, Fields(Some(SplitName(r.name)), Some(r.contact), Some(EmailText(r.email))));
      if out.Raised? {
        return;
      }
      var keep := if r.card.None? || tokenMap.None? then None else Lookup(tokenMap.value, r.card.value);
      out := DeleteCardsForContact(u, r.contact, keep);
      if out.Fine? {
        out := SwitchOnOne(r, u);
      }
    }

    method SwitchOnOne(r: ResolvedMember, u: UserId) returns (out: Outcome)
      requires Valid()
      modifies remote, this`cards, this`holders
      ensures Valid()
      ensures Step(View(), out) == SwitchOn(remote.faults, old(View()), r, u)
    {
      out := AttachCardIfSet(u, r.card);
      if out.Fine? {
        out := AssignPolicyIfSet(u, r.policy);
      }
      if out.Fine? {
        out := CallRemote(SetStatus(u, ACTIVE));
      }
    }

    method CreateOne(r: ResolvedMember) returns (out: Outcome)
      requires Valid() && r.name != ""
      modifies remote, this`cards, this`holders, this`userIds
      ensures Valid()
      ensures Step(View(), out) == Create(remote.faults, old(View()), r)
    {
      var reply := RequestUserWrite(None, Fields(Some(SplitName(r.name)), Some(r.contact), r.email));
      if !reply.Created? {
        return Raised(if reply.Failed? then reply.code else None);
      }
      userIds := userIds[r.contact := reply.user];
      out := AttachCardIfSet(reply.user, r.card);
      if out.Fine? {
        out := AssignPolicyIfSet(reply.user, r.policy);
      }
    }

    /** A contact's error is recorded and the loop goes on. */
    method RecordFailure(out: Outcome, k: ContactId)
      modifies this`failures
      ensures View() == Record(Step(old(View()), out), k)
    {
      if out.Raised? {
        failures := failures + [k];
      }
    }

    method ApplyDeactivate(d: Diff)
      requires Valid()
      modifies remote, this`holders, this`failures
      ensures Valid()
      ensures (View(), false) == RunUntilCrash(remote.faults, old(View()), Deactivations(d))
    {
      ghost var ts := Deactivations(d);
      for i := 0 to |d.toDeactivate|
        invariant Valid()
        invariant (View(), false) == RunUntilCrash(remote.faults, old(View()), ts[..i])
      {
        assert ts[..i + 1][..i] == ts[..i];
        var k := d.toDeactivate[i].contact;
        if k in userIds {
          var out := DeactivateOne(k, userIds[k]);
          RecordFailure(out, k);
        }
      }
      assert ts[..|ts|] == ts;
    }

    /** A name that cannot be split is no error of the API: it leaves the loop, and the apply. */
    method ApplyUpdateCredential(d: Diff) returns (crashed: bool)
      requires Valid()
      modifies remote, this`cards, this`holders, this`failures
      ensures Valid()
      ensures (View(), crashed) == RunUntilCrash(remote.faults, old(View()), Credentials(d))
    {
      ghost var ts := Credentials(d);
      for i := 0 to |d.toUpdateCredential|
        invariant Valid()
        invariant (View(), false) == RunUntilCrash(remote.faults, old(View()), ts[..i])
      {
        assert ts[..i + 1][..i] == ts[..i];
        var p := d.toUpdateCredential[i];
        if p.member.contact in userIds {
          if p.member.name == "" && p.user.name != "" {
            CrashStops(remote.faults, old(View()), ts, i + 1);
            return true;
          }
          var out := ApplyOneCredential(p, userIds[p.member.contact]);
          RecordFailure(out, p.member.contact);
        }
      }
      assert ts[..|ts|] == ts;
      crashed := false;
    }

    method ApplyUpdatePolicy(d: Diff)
      requires Valid()
      modifies remote, this`failures
      ensures Valid()
      ensures (View(), false) == RunUntilCrash(remote.faults, old(View()), Policies(d))
    {
      ghost var ts := Policies(d);
      for i := 0 to |d.toUpdatePolicy|
        invariant Valid()
        invariant (View(), false) == RunUntilCrash(remote.faults, old(View()), ts[..i])
      {
        assert ts[..i + 1][..i] == ts[..i];
        var p := d.toUpdatePolicy[i];
        if p.member.contact in userIds {
          var out := AssignPolicyIfSet(userIds[p.member.contact], p.member.policy);
          RecordFailure(out, p.member.contact);
        }
      }
      assert ts[..|ts|] == ts;
    }

    /** A member with an account is reactivated, any other gets a new account. */
    method AddOne(r: ResolvedMember)
      requires Valid() && r.name != ""
      modifies remote, this`cards, this`holders, this`failures, this`userIds
      ensures Valid()
      ensures View() == RunTask(remote.faults, old(View()), Add(r))
    {
      var out;
      if r.contact in userIds {
        out := ReactivateOne(r, userIds[r.contact]);
      } else {
        out := CreateOne(r);
      }
      RecordFailure(out, r.contact);
    }

    method ApplyAdd(d: Diff) returns (crashed: bool)
      requires Valid()
      modifies remote, this`cards, this`holders, this`failures, this`userIds
      ensures Valid()
      ensures (View(), crashed) == RunUntilCrash(remote.faults, old(View()), Additions(d))
    {
      ghost var ts := Additions(d);
      for i := 0 to |d.toAdd|
        invariant Valid()
        invariant (View(), false) == RunUntilCrash(remote.faults, old(View()), ts[..i])
      {
        assert ts[..i + 1][..i] == ts[..i];
        if d.toAdd[i].name == "" {
          CrashStops(remote.faults, old(View()), ts, i + 1);
          return true;
        }
        AddOne(d.toAdd[i]);
      }
      assert ts[..|ts|] == ts;
      crashed := false;
    }

    // ---- fetching the users ----

    /** The first `n` listed users were added to the caches, and `users` are those of them that are managed. */
    ghost predicate FetchedTo(start: Cache, n: nat, users: seq<UnifiUser>)
      requires n <= |remote.listing|
      reads this, remote
    {
      TakenTo(start, View().cache, remote.ctl, remote.listing, n, config.managed, users)
    }

    method RecordCardHolders(row: UserRow)
      modifies this`holders
      ensures holders == RecordHolders(old(holders), row, row.cards)
    {
      for i := 0 to |row.cards|
        invariant holders == RecordHolders(old(holders), row, row.cards[..i])
      {
        assert row.cards[..i + 1][..i] == row.cards[..i];
        holders := holders[row.cards[i] := Holder(row.id, row.record.employee, row.record.status)];
      }
      assert row.cards[..|row.cards|] == row.cards;
    }

    /** The card list is loaded when the first managed user with a card is met. */
    method LoadIndexFor(row: UserRow) returns (out: Outcome)
      requires Valid()
      modifies remote, this`tokenMap, this`cardOf
      ensures Valid() && remote.ctl == old(remote.ctl) && OnlyRead(old(remote.log), remote.log)
      ensures View().cache == old(View()).cache.(tokenMap := tokenMap, cardOf := cardOf)
      ensures row.cards == [] || old(tokenMap).Some? ==> out.Fine? && tokenMap == old(tokenMap) && cardOf == old(cardOf)
      ensures row.cards != [] && old(tokenMap).None? && out.Fine? ==>
                LoadedOver(old(View()).cache, View().cache, remote.ctl)
      ensures NoFaults(remote.faults) && |remote.ctl.cards| < USERS_PAGE * USERS_PAGES ==> out.Fine?
    {
      out := Fine;
      if row.cards != [] {
        ghost var before := View();
        out := EnsureNfcTokenMap();
        LoadResult(remote.faults, before);
      }
    }

    /** One listed user: who holds its cards, and for a managed one its id, its cards and its record. */
    method TakeUser(n: nat, users: seq<UnifiUser>, ghost start: Cache) returns (more: seq<UnifiUser>, out: Outcome)
      requires Valid() && n < |remote.listing| && FetchedTo(start, n, users)
      modifies remote, this`holders, this`userIds, this`cards, this`tokenMap, this`cardOf
      ensures Valid() && remote.ctl == old(remote.ctl) && OnlyRead(old(remote.log), remote.log)
      ensures out.Fine? ==> FetchedTo(start, n + 1, more)
      ensures NoFaults(remote.faults) && |remote.ctl.cards| < USERS_PAGE * USERS_PAGES ==> out.Fine?
    {
      ghost var before := View().cache;
      var row := remote.listing[n];
      more, out := users, Fine;
      RecordCardHolders(row);
      if Managed(row.record.employee) {
        userIds := userIds[row.record.employee.value := row.id];
        cards := cards[row.record.employee.value := row.cards];
        out := LoadIndexFor(row);
        if out.Raised? {
          return;
        }
        var user := ReadUser(row, cardOf, config.managed);
        more := users + [user.value];
      }
      UserTaken(start, before, View().cache, remote.ctl, remote.listing, n, config.managed, users, more);
    }

    /** The rows of a page, one by one. */
    method TakeUsers(first: nat, count: nat, users: seq<UnifiUser>, ghost start: Cache)
      returns (more: seq<UnifiUser>, out: Outcome)
      requires Valid() && first + count <= |remote.listing| && FetchedTo(start, first, users)
      modifies remote, this`holders, this`userIds, this`cards, this`tokenMap, this`cardOf
      ensures Valid() && remote.ctl == old(remote.ctl) && OnlyRead(old(remote.log), remote.log)
      ensures out.Fine? ==> FetchedTo(start, first + count, more)
      ensures NoFaults(remote.faults) && |remote.ctl.cards| < USERS_PAGE * USERS_PAGES ==> out.Fine?
    {
      more, out := users, Fine;
      for i := 0 to count
        invariant Valid() && first + count <= |remote.listing| && out.Fine?
        invariant remote.ctl == old(remote.ctl) && OnlyRead(old(remote.log), remote.log)
        invariant FetchedTo(start, first + i, more)
      {
        more, out := TakeUser(first + i, more, start);
        if out.Raised? {
          return;
        }
      }
    }

    /** Ask for one page of users and take its rows. */
    method FetchPage(p: nat, users: seq<UnifiUser>, ghost start: Cache)
      returns (more: seq<UnifiUser>, last: bool, out: Outcome)
      requires Valid() && 1 <= p <= USERS_PAGES && (p - 1) * USERS_PAGE <= |remote.listing|
      requires FetchedTo(start, (p - 1) * USERS_PAGE, users)
      modifies remote, this`holders, this`userIds, this`cards, this`tokenMap, this`cardOf
      ensures Valid() && remote.ctl == old(remote.ctl) && OnlyRead(old(remote.log), remote.log)
      ensures out.Fine? ==> (last <==> |remote.listing| < p * USERS_PAGE)
      ensures out.Fine? && last ==> FetchedTo(start, |remote.listing|, more)
      ensures out.Fine? && !last ==> p * USERS_PAGE <= |remote.listing| && FetchedTo(start, p * USERS_PAGE, more)
      ensures NoFaults(remote.faults) && |remote.ctl.cards| < USERS_PAGE * USERS_PAGES ==> out.Fine?
    {
      more, last := users, false;
      var reply := Ask(GetUsers(p));
      out := OutcomeOf(reply);
      if out.Raised? {
        return;
      }
      var first := (p - 1) * USERS_PAGE;
      var page := Page(remote.listing, USERS_PAGE, first);
      PageBounds(remote.listing, p);
      more, out := TakeUsers(first, |page|, users, start);
      last := |page| < USERS_PAGE;
    }

    /** All users, page by page; the fetch fails when the last allowed page is full. */
    method FetchUsers() returns (users: seq<UnifiUser>, out: Outcome)
      requires Valid()
      modifies remote, this`fetched, this`holders, this`userIds, this`cards, this`tokenMap, this`cardOf
      ensures Valid() && remote.ctl == old(remote.ctl) && OnlyRead(old(remote.log), remote.log)
      ensures fetched <==> old(fetched) || out.Fine?
      ensures out.Fine? ==> FetchedOver(old(View()).cache, View().cache, remote.ctl, remote.listing)
      ensures out.Fine? ==> users == ReadUsers(remote.listing, cardOf, config.managed)
      ensures |remote.listing| >= USERS_PAGE * USERS_PAGES ==> out.Raised?
      ensures NoFaults(remote.faults) && |remote.ctl.cards| < USERS_PAGE * USERS_PAGES ==>
                (out.Fine? <==> |remote.listing| < USERS_PAGE * USERS_PAGES)
    {
      users := [];
      ghost var start := View().cache;
      TakenNone(start, remote.ctl, remote.listing, config.managed);
      var p: nat := 1;
      while p <= USERS_PAGES
        invariant Valid() && 1 <= p <= USERS_PAGES + 1 && (p - 1) * USERS_PAGE <= |remote.listing|
        invariant remote.ctl == old(remote.ctl) && OnlyRead(old(remote.log), remote.log) && fetched == old(fetched)
        invariant FetchedTo(start, (p - 1) * USERS_PAGE, users)
      {
        var last;
        users, last, out := FetchPage(p, users, start);
        if out.Raised? {
          return;
        }
        if last {
          TakenAll(start, View().cache, remote.ctl, remote.listing, config.managed, users);
          fetched := true;
          return;
        }
        p := p + 1;
      }
      out := Raised(None);
    }

    // ---- the card list and the import ----

    /** Index the rows of one page both ways. */
    method IndexPage(page: seq<CardRow>, found: map<CardId, Token>) returns (more: map<CardId, Token>)
      modifies this`cardOf
      ensures more == IndexCards(found, SyncEntries(page))
      ensures cardOf == IndexTokens(old(cardOf), SyncEntries(page))
    {
      more := found;
      for i := 0 to |page|
        invariant more == IndexCards(found, SyncEntries(page[..i]))
        invariant cardOf == IndexTokens(old(cardOf), SyncEntries(page[..i]))
      {
        RowStep(found, old(cardOf), page[..i], page[i]);
        assert page[..i + 1] == page[..i] + [page[i]];
        var number := ParseSyncAlias(page[i].alias);
        if number.Some? {
          more := more[number.value := page[i].token];
          cardOf := cardOf[page[i].token := number.value];
        }
      }
      assert page[..|page|] == page;
    }

    method EnsureNfcTokenMap() returns (out: Outcome)
      requires Valid()
      modifies remote, this`tokenMap, this`cardOf
      ensures Valid()
      ensures Step(View(), out) == EnsureTokenMap(remote.faults, old(View()))
    {
      if tokenMap.Some? {
        return Fine;
      }
      out := LoadTokenMap();
    }

    /** Both indexes hold the rows of the first pages, all full; what is to come is `goal`. */
    ghost predicate Reading(goal: PagedRead, start: Session, list: seq<CardRow>, pages: nat, found: map<CardId, Token>)
      reads this, remote
    {
      && Valid() && list == remote.ctl.cards && pages * USERS_PAGE <= |list|
      && View().cache == start.cache.(cardOf := cardOf)
      && IndexedTo(list, pages, found, start.cache.cardOf, cardOf)
      && goal == ReadPages(remote.faults, View().(cache := start.cache), |list|, pages + 1)
    }

    /** The read ended after so many pages. */
    ghost predicate ReadUpTo(goal: PagedRead, start: Session, list: seq<CardRow>, pages: nat, found: map<CardId, Token>,
                             out: Outcome)
      reads this, remote
    {
      && Valid() && View().cache == start.cache.(cardOf := cardOf)
      && IndexedTo(list, pages, found, start.cache.cardOf, cardOf)
      && goal == PagedRead(View().(cache := start.cache), pages, out)
    }

    /** Ask for one page and index its rows. */
    method ReadPage(list: seq<CardRow>, pages: nat, found: map<CardId, Token>, ghost goal: PagedRead,
                    ghost start: Session)
      returns (more: map<CardId, Token>, last: bool, out: Outcome)
      requires pages < USERS_PAGES && Reading(goal, start, list, pages, found)
      modifies remote, this`cardOf
      ensures out.Raised? ==> ReadUpTo(goal, start, list, pages, more, out)
      ensures out.Fine? && last ==> ReadUpTo(goal, start, list, pages + 1, more, out)
      ensures out.Fine? && !last ==> Reading(goal, start, list, pages + 1, more)
    {
      more, last := found, false;
      PagesUnfold(remote.faults, View().(cache := start.cache), |list|, pages + 1);
      var reply := Ask(GetCards(pages + 1));
      out := OutcomeOf(reply);
      if out.Fine? {
        var page := Page(list, USERS_PAGE, pages * USERS_PAGE);
        PageStep(start.cache.cardOf, list, pages + 1);
        more := IndexPage(page, found);
        last := |page| < USERS_PAGE;
      }
    }

    lemma BeginsReading()
      requires Valid()
      ensures Reading(ReadPages(remote.faults, View(), |remote.ctl.cards|, 1), View(), remote.ctl.cards, 0, map[])
    {
    }

    /** After the last allowed page the read gives up. */
    lemma GivesUp(goal: PagedRead, start: Session, list: seq<CardRow>, found: map<CardId, Token>)
      requires Reading(goal, start, list, USERS_PAGES, found)
      ensures ReadUpTo(goal, start, list, USERS_PAGES, found, Raised(None))
    {
    }

    /** The whole list, page by page; the second index is filled as the rows come. */
    method ReadAllPages() returns (found: map<CardId, Token>, out: Outcome, pages: nat)
      requires Valid()
      modifies remote, this`cardOf
      ensures ReadUpTo(ReadPages(remote.faults, old(View()), |old(remote.ctl.cards)|, 1), old(View()),
                       old(remote.ctl.cards), pages, found, out)
    {
      var list := remote.ctl.cards;
      found, pages := map[], 0;
      ghost var start, goal := View(), ReadPages(remote.faults, View(), |list|, 1);
      BeginsReading();
      while pages < USERS_PAGES
        invariant pages <= USERS_PAGES && Reading(goal, start, list, pages, found)
      {
        var last;
        found, last, out := ReadPage(list, pages, found, goal, start);
        if out.Raised? {
          return;
        }
        pages := pages + 1;
        if last {
          return;
        }
      }
      GivesUp(goal, start, list, found);
      out := Raised(None);
    }

    method LoadTokenMap() returns (out: Outcome)
      requires Valid() && tokenMap.None?
      modifies remote, this`tokenMap, this`cardOf
      ensures Valid()
      ensures Step(View(), out) == LoadCards(remote.faults, old(View()))
    {
      var found, pages;
      found, out, pages := ReadAllPages();
      if out.Fine? {
        tokenMap := Some(found);
      }
    }

    /** One line of the upload per card. */
    method CardLines(cards: seq<CardId>) returns (lines: seq<ImportLine>)
      ensures lines == ImportLines(config.facility, cards)
    {
      lines := [];
      for i := 0 to |cards|
        invariant lines == ImportLines(config.facility, cards)[..i]
      {
        lines := lines + [ImportLine(ComputeNfcId(config.facility, cards[i]), SyncAlias(cards[i]))];
      }
    }

    method TakeRows(rows: seq<ImportRow>) returns (ok: bool)
      requires Valid() && tokenMap.Some?
      modifies this`tokenMap, this`cardOf
      ensures View() == old(View()).(cache := TakeImported(old(View()).cache, config.facility, rows).0)
      ensures ok == TakeImported(old(View()).cache, config.facility, rows).1
    {
      for i := 0 to |rows|
        invariant (View().cache, true) == TakeImported(old(View()).cache, config.facility, rows[..i])
        invariant tokenMap.Some?
      {
        assert rows[..i + 1][..i] == rows[..i];
        var number := ParseNfcId(rows[i].nfcId, config.facility);
        if number.None? {
          TakeStops(old(View()).cache, config.facility, rows, i + 1);
          return false;
        }
        tokenMap := Some(tokenMap.value[number.value := rows[i].token]);
        cardOf := cardOf[rows[i].token := number.value];
      }
      assert rows[..|rows|] == rows;
      ok := true;
    }

    method ImportNewCards(cards: seq<CardId>) returns (out: Outcome)
      requires Valid() && tokenMap.Some?
      modifies remote, this`tokenMap, this`cardOf
      ensures Valid()
      ensures Step(View(), out) == Import(remote.faults, config, old(View()), cards)
    {
      var lines := CardLines(cards);
      var reply := Ask(ImportCards(lines));
      if !reply.Imported? {
        return Raised(if reply.Failed? then reply.code else None);
      }
      var ok := TakeRows(reply.rows);
      out := if ok then Fine else Raised(None);
    }

    /** The written cards without a token, sorted: first those of additions, then those of credential changes. */
    method UnknownCards(d: Diff, m: map<CardId, Token>) returns (needed: seq<CardId>)
      ensures needed == NeededCards(Writers(d), m)
    {
      needed := AddUnknown([], d.toAdd, [], m);
      var updated := seq(|d.toUpdateCredential|,
                         i requires 0 <= i < |d.toUpdateCredential| => d.toUpdateCredential[i].member);
      assert [] + d.toAdd == d.toAdd && d.toAdd + updated == Writers(d);
      needed := AddUnknown(d.toAdd, updated, needed, m);
    }

    method AddUnknown(ghost before: seq<ResolvedMember>, ws: seq<ResolvedMember>, known: seq<CardId>,
                      m: map<CardId, Token>)
      returns (needed: seq<CardId>)
      requires known == NeededCards(before, m)
      ensures needed == NeededCards(before + ws, m)
    {
      needed := known;
      assert before + ws[..0] == before;
      for i := 0 to |ws|
        invariant needed == NeededCards(before + ws[..i], m)
      {
        assert before + ws[..i + 1] == (before + ws[..i]) + [ws[i]];
        NeededStep(before + ws[..i], ws[i], m);
        if ws[i].card.Some? && ws[i].card.value !in m {
          needed := InsertSorted(ws[i].card.value, needed);
        }
      }
      assert ws[..|ws|] == ws;
    }

    method PreimportUnknownCards(d: Diff) returns (out: Outcome)
      requires Valid()
      modifies remote, this`tokenMap, this`cardOf
      ensures Valid()
      ensures Step(View(), out) == PreImport(remote.faults, config, old(View()), d)
    {
      if d.toAdd == [] && d.toUpdateCredential == [] {
        return Fine;
      }
      out := EnsureNfcTokenMap();
      if out.Raised? || tokenMap.None? {
        return;
      }
      var needed := UnknownCards(d, tokenMap.value);
      if needed != [] {
        out := ImportNewCards(needed);
      }
    }

    // ---- the whole apply ----

    method ApplyLive(d: Diff) returns (out: Outcome)
      requires Valid()
      modifies remote, this`cards, this`holders, this`failures, this`userIds, this`tokenMap, this`cardOf
      ensures Valid()
      ensures Step(View(), out) == Protocol.Apply(remote.faults, config, old(View()), d)
    {
      failures := [];
      out := PreimportUnknownCards(d);
      if out.Raised? {
        return;
      }
      TaskParts(remote.faults, View(), d);
      ApplyDeactivate(d);
      var crashed := ApplyUpdateCredential(d);
      if crashed {
        return Raised(None);
      }
      ApplyUpdatePolicy(d);
      crashed := ApplyAdd(d);
      out := if !crashed && failures == [] then Fine else Raised(None);
    }

    /** An apply needs a fetch before it, and in a dry run it only reads. */
    method Apply(d: Diff) returns (out: Outcome)
      requires Valid()
      modifies remote, this`cards, this`holders, this`failures, this`userIds, this`tokenMap, this`cardOf
      ensures Valid()
      ensures !fetched ==> out.Raised? && View() == old(View())
      ensures fetched && !dryRun ==> Step(View(), out) == Protocol.Apply(remote.faults, config, old(View()), d)
      ensures fetched && dryRun ==> remote.ctl == old(remote.ctl) && OnlyRead(old(remote.log), remote.log)
    {
      if !fetched {
        return Raised(None);
      }
      if !dryRun {
        out := ApplyLive(d);
        return;
      }
      out := Fine;
      var anyCard := AnyCard(d);
      if anyCard {
        ghost var before := View();
        out := EnsureNfcTokenMap();
        EnsureOnlyReads(remote.faults, before);
      }
    }

    method AnyCard(d: Diff) returns (any: bool)
      ensures any <==> exists w :: w in Writers(d) && w.card.Some?
    {
      var ws := Writers(d);
      for i := 0 to |ws|
        invariant forall j :: 0 <= j < i ==> ws[j].card.None?
      {
        if ws[i].card.Some? {
          return true;
        }
      }
      any := false;
    }
  }

  lemma NeededStep(ws: seq<ResolvedMember>, w: ResolvedMember, m: map<CardId, Token>)
    ensures var front := NeededCards(ws, m);
      NeededCards(ws + [w], m) ==
        if w.card.Some? && w.card.value !in m then InsertSorted(w.card.value, front) else front
  {
    assert (ws + [w])[..|ws|] == ws;
  }

  /** After a row of another facility nothing more is taken. */
  lemma {:induction false} TakeStops(cache: Cache, facility: nat, rows: seq<ImportRow>, n: nat)
    requires cache.tokenMap.Some? && n <= |rows| && !TakeImported(cache, facility, rows[..n]).1
    ensures TakeImported(cache, facility, rows) == TakeImported(cache, facility, rows[..n])
  {
    if n < |rows| {
      var front := rows[..|rows| - 1];
      assert front[..n] == rows[..n];
      TakeStops(cache, facility, front, n);
    } else {
      assert rows[..n] == rows;
    }
  }

  /** After a crash no entry is reached. */
  lemma {:induction false} CrashStops(f: Faults, s: Session, ts: seq<Task>, n: nat)
    requires n <= |ts| && RunUntilCrash(f, s, ts[..n]).1
    ensures RunUntilCrash(f, s, ts) == RunUntilCrash(f, s, ts[..n])
  {
    if n < |ts| {
      var front := ts[..|ts| - 1];
      assert front[..n] == ts[..n];
      CrashStops(f, s, front, n);
    } else {
      assert ts[..n] == ts;
    }
  }

  /** Two lists in turn, the second only when the first did not crash. */
  ghost function InTurn(f: Faults, before: (Session, bool), ts: seq<Task>): (Session, bool) {
    if before.1 then before else RunUntilCrash(f, before.0, ts)
  }

  lemma {:induction false} RunSplits(f: Faults, s: Session, a: seq<Task>, b: seq<Task>)
    ensures RunUntilCrash(f, s, a + b) == InTurn(f, RunUntilCrash(f, s, a), b)
  {
    if b == [] {
      assert a + b == a;
    } else {
      assert (a + b)[..|a + b| - 1] == a + b[..|b| - 1];
      RunSplits(f, s, a, b[..|b| - 1]);
    }
  }

  /** The four loops of an apply are one run over all entries, up to a crash. */
  lemma TaskParts(f: Faults, s: Session, d: Diff)
    ensures var revoked := RunUntilCrash(f, s, Deactivations(d));
      RunUntilCrash(f, s, Tasks(d)) ==
      InTurn(f, InTurn(f, InTurn(f, revoked, Credentials(d)), Policies(d)), Additions(d))
  {
    var a, b, c, e := Deactivations(d), Credentials(d), Policies(d), Additions(d);
    RunSplits(f, s, a, b);
    RunSplits(f, s, a + b, c);
    RunSplits(f, s, a + b + c, e);
  }

  lemma {:induction false} PagesOnlyRead(f: Faults, s: Session, n: nat, p: nat)
    requires p >= 1
    ensures OnlyRead(s.log, ReadPages(f, s, n, p).s.log)
    decreases USERS_PAGES + 1 - p
  {
    if p <= USERS_PAGES {
      var (s1, reply) := Send(f, s, GetCards(p));
      if !reply.Failed? && n >= p * USERS_PAGE {
        PagesOnlyRead(f, s1, n, p + 1);
        assert s1.log == s.log + [s1.log[|s.log|]];
      }
    }
  }

  lemma EnsureOnlyReads(f: Faults, s: Session)
    ensures var r := EnsureTokenMap(f, s).s;
      r.ctl == s.ctl && r.failures == s.failures && OnlyRead(s.log, r.log) &&
      r.cache == s.cache.(tokenMap := r.cache.tokenMap, cardOf := r.cache.cardOf)
  {
    if s.cache.tokenMap.None? {
      ReadPagesResult(f, s, |s.ctl.cards|, 1);
      PagesOnlyRead(f, s, |s.ctl.cards|, 1);
    }
  }

  /** What loading the card list gives a fetch. */
  lemma LoadResult(f: Faults, s: Session)
    ensures var r := EnsureTokenMap(f, s);
      && r.s.ctl == s.ctl && OnlyRead(s.log, r.s.log)
      && r.s.cache == s.cache.(tokenMap := r.s.cache.tokenMap, cardOf := r.s.cache.cardOf)
      && (s.cache.tokenMap.Some? ==> r == Step(s, Fine))
      && (s.cache.tokenMap.None? && r.out.Fine? ==> LoadedOver(s.cache, r.s.cache, s.ctl))
      && (NoFaults(f) && |s.ctl.cards| < USERS_PAGE * USERS_PAGES ==> r.out.Fine?)
  {
    EnsureOnlyReads(f, s);
    ReadPagesResult(f, s, |s.ctl.cards|, 1);
  }

  lemma PageBounds(list: seq<UserRow>, p: nat)
    requires p >= 1 && (p - 1) * USERS_PAGE <= |list|
    ensures var start := (p - 1) * USERS_PAGE; var page := Page(list, USERS_PAGE, start);
      && start + |page| <= |list|
      && (if |page| < USERS_PAGE then |list| < p * USERS_PAGE && start + |page| == |list|
          else p * USERS_PAGE <= |list| && start + |page| == p * USERS_PAGE)
  {
    PageExtends(list, USERS_PAGE, p - 1);
  }

  /** Only listings were requested. */
  ghost predicate OnlyRead(log: seq<Event>, log': seq<Event>) {
    log <= log' && forall i :: |log| <= i < |log'| ==> log'[i].request.GetUsers? || log'[i].request.GetCards?
  }

  ghost predicate TakenTo(start: Cache, cache: Cache, c: State, rows: seq<UserRow>, n: nat,
                          managed: Option<set<string>>,
                          users: seq<UnifiUser>)
    requires n <= |rows|
  {
    FetchedOver(start, cache, c, rows[..n]) && users == ReadUsers(rows[..n], cache.cardOf, managed)
  }

  lemma TakenNone(start: Cache, c: State, rows: seq<UserRow>, managed: Option<set<string>>)
    ensures TakenTo(start, start, c, rows, 0, managed, [])
  {
    assert rows[..0] == [];
    assert start.userIds + map[] == start.userIds && start.cards + map[] == start.cards;
    assert start.holders + map[] == start.holders;
  }

  lemma TakenAll(start: Cache, cache: Cache, c: State, rows: seq<UserRow>, managed: Option<set<string>>,
                 users: seq<UnifiUser>)
    requires TakenTo(start, cache, c, rows, |rows|, managed, users)
    ensures FetchedOver(start, cache, c, rows) && users == ReadUsers(rows, cache.cardOf, managed)
  {
    assert rows[..|rows|] == rows;
  }

  /** The user caches with one more row. */
  lemma OneMoreRow(rows: seq<UserRow>, n: nat)
    requires n < |rows|
    ensures var front, next, row := rows[..n], rows[..n + 1], rows[n];
      && IndexHolders(next) == RecordHolders(IndexHolders(front), row, row.cards)
      && IndexUserIds(next) == (if Managed(row.record.employee)
                                then IndexUserIds(front)[row.record.employee.value := row.id] else IndexUserIds(front))
      && IndexCardLists(next) == (if Managed(row.record.employee)
                                  then IndexCardLists(front)[row.record.employee.value := row.cards]
                                  else IndexCardLists(front))
      && (HasManagedCards(next) <==> HasManagedCards(front) || (Managed(row.record.employee) && row.cards != []))
  {
    var front, next := rows[..n], rows[..n + 1];
    assert next[..n] == front;
    assert forall i :: 0 <= i < n ==> next[i] == front[i];
  }

  lemma OneMoreUser(rows: seq<UserRow>, n: nat, m: map<Token, CardId>, managed: Option<set<string>>)
    requires n < |rows|
    ensures ReadUsers(rows[..n + 1], m, managed) ==
            match ReadUser(rows[n], m, managed)
            case None => ReadUsers(rows[..n], m, managed)
            case Some(u) => ReadUsers(rows[..n], m, managed) + [u]
  {
    assert rows[..n + 1][..n] == rows[..n];
  }

  lemma {:induction false} HoldersOver(m: map<Token, Holder>, n: map<Token, Holder>, row: UserRow, tokens: seq<Token>)
    ensures RecordHolders(m + n, row, tokens) == m + RecordHolders(n, row, tokens)
  {
    if tokens != [] {
      HoldersOver(m, n, row, tokens[..|tokens| - 1]);
    }
  }

  /** The user caches with one more row, on top of what they held before the fetch. */
  lemma OneMoreRowOver(start: Cache, cache: Cache, cache': Cache, rows: seq<UserRow>, n: nat)
    requires n < |rows|
    requires cache.userIds == start.userIds + IndexUserIds(rows[..n])
    requires cache.cards == start.cards + IndexCardLists(rows[..n])
    requires cache.holders == start.holders + IndexHolders(rows[..n])
    requires RowTaken(cache, cache', rows[n])
    ensures cache'.userIds == start.userIds + IndexUserIds(rows[..n + 1])
    ensures cache'.cards == start.cards + IndexCardLists(rows[..n + 1])
    ensures cache'.holders == start.holders + IndexHolders(rows[..n + 1])
  {
    var row := rows[n];
    OneMoreRow(rows, n);
    HoldersOver(start.holders, IndexHolders(rows[..n]), row, row.cards);
    if Managed(row.record.employee) {
      EntryOver(start.userIds, IndexUserIds(rows[..n]), row.record.employee.value, row.id);
      EntryOver(start.cards, IndexCardLists(rows[..n]), row.record.employee.value, row.cards);
    }
  }

  lemma EntryOver<V>(m: map<ContactId, V>, n: map<ContactId, V>, k: ContactId, v: V)
    ensures (m + n)[k := v] == m + n[k := v]
  {
  }

  /** A row's holders, its id and its cards were recorded. */
  ghost predicate RowTaken(cache: Cache, cache': Cache, row: UserRow) {
    var k := row.record.employee;
    && cache'.holders == RecordHolders(cache.holders, row, row.cards)
    && cache'.userIds == (if Managed(k) then cache.userIds[k.value := row.id] else cache.userIds)
    && cache'.cards == (if Managed(k) then cache.cards[k.value := row.cards] else cache.cards)
  }

  /** Taking the row's holders, ids and cards, with the index loaded if needed, takes the row. */
  lemma UserTaken(start: Cache, cache: Cache, cache': Cache, c: State, rows: seq<UserRow>, n: nat,
                  managed: Option<set<string>>, users: seq<UnifiUser>, users': seq<UnifiUser>)
    requires n < |rows| && TakenTo(start, cache, c, rows, n, managed, users) && RowTaken(cache, cache', rows[n])
    requires var row := rows[n]; var k := row.record.employee;
      && (if Managed(k) && row.cards != [] && cache.tokenMap.None? then LoadedOver(cache, cache', c)
          else cache'.tokenMap == cache.tokenMap && cache'.cardOf == cache.cardOf)
      && users' == (if Managed(k) then users + [ReadUser(row, cache'.cardOf, managed).value] else users)
    ensures TakenTo(start, cache', c, rows, n + 1, managed, users')
  {
    OneMoreRowOver(start, cache, cache', rows, n);
    OneMoreRow(rows, n);
    OneMoreUser(rows, n, cache'.cardOf, managed);
    if !HasManagedCards(rows[..n]) {
      NoCardsToRead(rows[..n], cache.cardOf, cache'.cardOf, managed);
    }
  }

  ghost function IndexedCards(list: seq<CardRow>, pages: nat): map<CardId, Token> {
    IndexCards(map[], SyncEntries(FirstRows(list, pages * USERS_PAGE)))
  }

  /** The rows of the first pages are indexed both ways; the token index extends `n`. */
  ghost predicate IndexedTo(list: seq<CardRow>, pages: nat, found: map<CardId, Token>, n: map<Token, CardId>,
                            m: map<Token, CardId>) {
    found == IndexedCards(list, pages) && m == IndexTokens(n, SyncEntries(FirstRows(list, pages * USERS_PAGE)))
  }

  lemma EntriesStep(rows: seq<CardRow>, row: CardRow)
    ensures SyncEntries(rows + [row]) ==
            SyncEntries(rows) + match ParseSyncAlias(row.alias) case None => [] case Some(c) => [Entry(c, row.token)]
  {
    assert (rows + [row])[..|rows|] == rows;
  }

  lemma IndexStep(m: map<CardId, Token>, n: map<Token, CardId>, es: seq<Entry>, e: Entry)
    ensures IndexCards(m, es + [e]) == IndexCards(m, es)[e.card := e.token]
    ensures IndexTokens(n, es + [e]) == IndexTokens(n, es)[e.token := e.card]
  {
    assert (es + [e])[..|es|] == es;
  }

  /** Indexing one more row. */
  lemma RowStep(m: map<CardId, Token>, n: map<Token, CardId>, rows: seq<CardRow>, row: CardRow)
    ensures var number := ParseSyncAlias(row.alias); var before, after := SyncEntries(rows), SyncEntries(rows + [row]);
      && (number.None? ==> after == before)
      && (number.Some? ==> IndexCards(m, after) == IndexCards(m, before)[number.value := row.token])
      && (number.Some? ==> IndexTokens(n, after) == IndexTokens(n, before)[row.token := number.value])
  {
    EntriesStep(rows, row);
    var number := ParseSyncAlias(row.alias);
    if number.Some? {
      IndexStep(m, n, SyncEntries(rows), Entry(number.value, row.token));
    }
  }

  /** Indexing one more page. */
  lemma PageStep(n: map<Token, CardId>, list: seq<CardRow>, p: nat)
    requires p >= 1 && (p - 1) * USERS_PAGE <= |list|
    ensures var page := Page(list, USERS_PAGE, (p - 1) * USERS_PAGE);
      var read, next := FirstRows(list, (p - 1) * USERS_PAGE), FirstRows(list, p * USERS_PAGE);
      && (if |page| < USERS_PAGE then |list| < p * USERS_PAGE else p * USERS_PAGE <= |list|)
      && IndexCards(IndexCards(map[], SyncEntries(read)), SyncEntries(page)) == IndexCards(map[], SyncEntries(next))
      && IndexTokens(IndexTokens(n, SyncEntries(read)), SyncEntries(page)) == IndexTokens(n, SyncEntries(next))
  {
    PageExtends(list, USERS_PAGE, p - 1);
    var page, read := Page(list, USERS_PAGE, (p - 1) * USERS_PAGE), FirstRows(list, (p - 1) * USERS_PAGE);
    assert read + page == FirstRows(list, p * USERS_PAGE);
    EntriesConcat(read, page);
    IndexConcat(map[], n, SyncEntries(read), SyncEntries(page));
  }

  /** One page of the paged read. */
  lemma PagesUnfold(f: Faults, s: Session, n: nat, p: nat)
    requires 1 <= p <= USERS_PAGES
    ensures var (s1, reply) := Send(f, s, GetCards(p));
      && s1 == s.(log := s1.log)
      && ReadPages(f, s, n, p) ==
           if reply.Failed? then PagedRead(s1, p - 1, Raised(reply.code))
           else if n < p * USERS_PAGE then PagedRead(s1, p, Fine)
           else ReadPages(f, s1, n, p + 1)
  {
  }
}
