/**
What each step of the protocol changes, and what it leaves alone, whatever requests fail.
*/
module Effects {
  import opened Models
  import opened Codec
  import opened Controller
  import opened Protocol

  // ---- the frame of a step about one user ----

  /** The holder of `t` is known to be disabled, and is not `u`. */
  predicate Reclaimable(cache: Cache, t: Token, u: UserId) {
    t in cache.holders && cache.holders[t].user != u && IsDisabled(cache.holders[t].status)
  }

  /** Nobody but `u` gains a card; the others lose at most `card`, and only to a reclaim. */
  ghost predicate Takes(s: Session, s': Session, u: UserId, card: Option<Token>) {
    && (forall v, t :: v != u && Holds(s'.ctl, v, t) ==> Holds(s.ctl, v, t))
    && (forall v, t: Token :: v != u && Holds(s.ctl, v, t) && !Holds(s'.ctl, v, t) ==>
          Some(t) == card && Reclaimable(s.cache, t, u))
  }

  /** Holder entries only go away for `card`, and only change to say that `u` was deactivated. */
  ghost predicate HoldersAge(before: map<Token, Holder>, after: map<Token, Holder>, u: UserId, card: Option<Token>) {
    && (forall t :: t in after ==> t in before)
    && (forall t :: t in after && after[t] != before[t] ==>
          before[t].user == u && after[t] == before[t].(status := DEACTIVATED))
    && (forall t: Token :: t in before && t !in after ==> Some(t) == card)
  }

  /** The request concerns user `u` only. */
  predicate About(r: Request, u: UserId) {
    match r
    case UpdateUser(v, _) => v == u
    case SetStatus(v, _) => v == u
    case SetPolicies(v, _) => v == u
    case DeleteCard(v, _) => v == u
    case BindCard(v, _, _) => v == u
    case _ => false
  }

  ghost predicate OnlyAbout(log: seq<Event>, log': seq<Event>, u: UserId) {
    log <= log' && forall i :: |log| <= i < |log'| ==> About(log'[i].request, u)
  }

  ghost predicate SameRest(s: Session, s': Session) {
    && s'.ctl.cards == s.ctl.cards && s'.ctl.adminEmails == s.ctl.adminEmails && s'.ctl.nextToken == s.ctl.nextToken
    && s'.cache.tokenMap == s.cache.tokenMap && s'.cache.cardOf == s.cache.cardOf
    && s'.failures == s.failures
  }

  /** A step that concerns user `u` and may bring it the card `card`. */
  ghost predicate Touches(s: Session, s': Session, u: UserId, card: Option<Token>) {
    && SameRest(s, s') && Takes(s, s', u, card) && OnlyAbout(s.log, s'.log, u)
    && HoldersAge(s.cache.holders, s'.cache.holders, u, card)
    && s'.ctl.nextUser == s.ctl.nextUser && s'.cache.userIds == s.cache.userIds
    && s'.ctl.users.Keys == s.ctl.users.Keys
    && (forall v :: v in s.ctl.users && v != u ==> s'.ctl.users[v] == s.ctl.users[v])
  }

  lemma TouchesTransitive(a: Session, b: Session, c: Session, u: UserId, card: Option<Token>)
    requires Touches(a, b, u, card) && Touches(b, c, u, card)
    ensures Touches(a, c, u, card)
  {
  }

  lemma TouchesMore(s: Session, s': Session, u: UserId, card: Option<Token>)
    requires Touches(s, s', u, None)
    ensures Touches(s, s', u, card)
  {
  }

  lemma SendTouches(f: Faults, s: Session, r: Request, u: UserId, card: Option<Token>)
    requires About(r, u)
    requires r.BindCard? && r.force ==> Some(r.token) == card && Reclaimable(s.cache, r.token, u)
    ensures Touches(s, Send(f, s, r).0, u, card)
    ensures Send(f, s, r).0.cache == s.cache
  {
  }

  // ---- records ----

  /** A write of contact `k`'s record that carries an email; `ids` are the users known at the start. */
  predicate EmailWriteFor(r: Request, ids: map<ContactId, UserId>, k: ContactId) {
    match r
    case CreateUser(fields) => fields.employee == Some(k) && fields.email.Some?
    case UpdateUser(v, fields) => k in ids && ids[k] == v && fields.email.Some?
    case _ => false
  }

  /** The email of contact `k` was refused because it is registered to another account. */
  ghost predicate EmailRefused(log: seq<Event>, ids: map<ContactId, UserId>, k: ContactId) {
    exists i :: 0 <= i < |log| && EmailWriteFor(log[i].request, ids, k) &&
                log[i].reply.Failed? && IsEmailConflict(log[i].reply.code)
  }

  ghost predicate NoEmailWrites(log: seq<Event>, log': seq<Event>, ids: map<ContactId, UserId>, k: ContactId) {
    log <= log' && forall i :: |log| <= i < |log'| ==> !EmailWriteFor(log'[i].request, ids, k)
  }

  lemma RefusalStays(log: seq<Event>, log': seq<Event>, ids: map<ContactId, UserId>, k: ContactId)
    requires NoEmailWrites(log, log', ids, k)
    ensures EmailRefused(log', ids, k) <==> EmailRefused(log, ids, k)
  {
  }

  /** The fields that reach the record: the email is left out when it was refused. */
  ghost function Kept(fields: Fields, log: seq<Event>, ids: map<ContactId, UserId>, k: ContactId): Fields {
    if EmailRefused(log, ids, k) then fields.(email := None) else fields
  }

  predicate Conflicts(reply: Reply, fields: Fields) {
    reply.Failed? && fields.email.Some? && IsEmailConflict(reply.code)
  }

  lemma UpdateEffect(f: Faults, s: Session, ids: map<ContactId, UserId>, k: ContactId, fields: Fields)
    requires k in ids && ids[k] in s.ctl.users
    ensures var u := ids[k]; var (s1, reply) := Send(f, s, UpdateUser(u, fields));
      && Touches(s, s1, u, None) && s1.ctl.bound == s.ctl.bound && s1.cache == s.cache
      && s1.ctl.users[u] in {s.ctl.users[u], Written(s.ctl.users[u], fields)}
      && (!reply.Failed? ==> s1.ctl.users[u] == Written(s.ctl.users[u], fields))
      && (Conflicts(reply, fields) ==> s1.ctl == s.ctl)
      && (EmailRefused(s1.log, ids, k) <==> EmailRefused(s.log, ids, k) || Conflicts(reply, fields))
  {
    var u := ids[k];
    var (s1, reply) := Send(f, s, UpdateUser(u, fields));
    SendTouches(f, s, UpdateUser(u, fields), u, None);
    LastRefusal(s.log, Event(UpdateUser(u, fields), s.ctl, reply), ids, k);
  }

  lemma LastRefusal(log: seq<Event>, e: Event, ids: map<ContactId, UserId>, k: ContactId)
    ensures EmailRefused(log + [e], ids, k) <==>
              EmailRefused(log, ids, k) ||
              (EmailWriteFor(e.request, ids, k) && e.reply.Failed? && IsEmailConflict(e.reply.code))
  {
    var log' := log + [e];
    assert log'[|log|] == e;
    assert forall i :: 0 <= i < |log| ==> log'[i] == log[i];
  }

  lemma WriteRecordEffect(f: Faults, s: Session, ids: map<ContactId, UserId>, k: ContactId, fields: Fields)
    requires k in ids && ids[k] in s.ctl.users
    ensures var u := ids[k]; var r := WriteRecord(f, s, u, fields);
      && Touches(s, r.s, u, None) && r.s.ctl.bound == s.ctl.bound && r.s.cache == s.cache
      && (r.out.Fine? && !EmailRefused(s.log, ids, k) ==>
            r.s.ctl.users[u] == Written(s.ctl.users[u], Kept(fields, r.s.log, ids, k)))
      && r.s.ctl.users[u].status == s.ctl.users[u].status && r.s.ctl.users[u].policies == s.ctl.users[u].policies
      && r.s.ctl.users[u].employee in {s.ctl.users[u].employee, Written(s.ctl.users[u], fields).employee}
  {
    var u := ids[k];
    if fields != NOTHING {
      UpdateEffect(f, s, ids, k, fields);
      var (s1, reply) := Send(f, s, UpdateUser(u, fields));
      var rest := fields.(email := None);
      if Conflicts(reply, fields) && rest != NOTHING {
        UpdateEffect(f, s1, ids, k, rest);
        TouchesTransitive(s, s1, Send(f, s1, UpdateUser(u, rest)).0, u, None);
      }
    }
  }

  /**
  Without request failures an email is refused exactly when it is registered to another account, and then
  the record keeps the email it had.
  */
  lemma RefusedExactlyWhenTaken(f: Faults, s: Session, ids: map<ContactId, UserId>, k: ContactId, fields: Fields)
    requires (forall n :: f(n) == Answer) && k in ids && ids[k] in s.ctl.users && !EmailRefused(s.log, ids, k)
    requires fields.email.Some?
    ensures var u := ids[k]; var s' := WriteRecord(f, s, u, fields).s;
            var taken := EmailTaken(s.ctl, Some(u), fields.email.value);
      && (EmailRefused(s'.log, ids, k) <==> taken)
      && u in s'.ctl.users
      && s'.ctl.users[u].email == (if taken then s.ctl.users[u].email else fields.email.value)
  {
    var u := ids[k];
    var s1 := Send(f, s, UpdateUser(u, fields)).0;
    ConflictCode();
    UpdateEffect(f, s, ids, k, fields);
    UpdateEffect(f, s1, ids, k, fields.(email := None));
  }

  lemma ConflictCode()
    ensures IsEmailConflict(Some(CODE_EMAIL_EXIST)) && !IsEmailConflict(Some(CODE_NOT_FOUND))
  {
  }

  /** New accounts of contact `k`, switched on and without policies, under the next ids; nothing else changed. */
  ghost predicate Opened(c: State, c': State, k: ContactId) {
    && c.nextUser <= c'.nextUser && c' == c.(users := c'.users, nextUser := c'.nextUser)
    && (forall u :: u in c'.users <==> u in c.users || c.nextUser <= u < c'.nextUser)
    && (forall u :: u in c.users && !(c.nextUser <= u < c'.nextUser) ==> c'.users[u] == c.users[u])
    && (forall u :: c.nextUser <= u < c'.nextUser ==> IsNew(c'.users[u], k))
  }

  predicate IsNew(record: UserRecord, k: ContactId) {
    record.employee == Some(k) && record.status == ACTIVE && record.policies == []
  }

  lemma OpenedTransitive(a: State, b: State, c: State, k: ContactId)
    requires Opened(a, b, k) && Opened(b, c, k)
    ensures Opened(a, c, k)
  {
  }

  /** The same with the record given in full. */
  ghost predicate OpenedAs(c: State, c': State, record: UserRecord) {
    && c.nextUser <= c'.nextUser && c' == c.(users := c'.users, nextUser := c'.nextUser)
    && (forall u :: u in c'.users <==> u in c.users || c.nextUser <= u < c'.nextUser)
    && (forall u :: u in c.users && !(c.nextUser <= u < c'.nextUser) ==> c'.users[u] == c.users[u])
    && (forall u :: c.nextUser <= u < c'.nextUser ==> c'.users[u] == record)
  }

  /** How often a create sent so many times takes effect: an email is accepted once only. */
  function Openings(c: State, fields: Fields, sendings: nat): nat {
    if fields.email.None? || fields.email.value == "" then sendings
    else if sendings == 0 || EmailTaken(c, None, fields.email.value) then 0 else 1
  }

  lemma CreateOnce(c: State, fields: Fields)
    ensures var (c', reply) := Exec(c, CreateUser(fields));
      && OpenedAs(c, c', Written(NEW_USER, fields)) && c'.nextUser == c.nextUser + Openings(c, fields, 1)
      && (if c'.nextUser > c.nextUser then reply == Created(c.nextUser) else reply == Failed(Some(CODE_EMAIL_EXIST)))
  {
  }

  /** Once the email is registered, the same create is refused. */
  lemma OnceMore(c: State, c': State, fields: Fields, n: nat)
    requires OpenedAs(c, c', Written(NEW_USER, fields)) && n > 0 && c'.nextUser == c.nextUser + Openings(c, fields, n)
    ensures Openings(c, fields, n) + Openings(c', fields, 1) == Openings(c, fields, n + 1)
  {
    if fields.email.Some? && fields.email.value != "" {
      if c'.nextUser > c.nextUser {
        assert c.nextUser in c'.users && c'.users[c.nextUser].email == fields.email.value;
      } else {
        assert c'.users == c.users;
      }
    }
  }

  lemma {:induction false} ResentCreate(c: State, fields: Fields, n: nat)
    ensures var (c', reply) := Resent(c, CreateUser(fields), n);
      && OpenedAs(c, c', Written(NEW_USER, fields)) && c'.nextUser == c.nextUser + Openings(c, fields, n + 1)
      && (reply.Created? || reply == Failed(Some(CODE_EMAIL_EXIST)))
      && (reply.Created? <==> Openings(c, fields, n + 1) > Openings(c, fields, n))
      && (reply.Created? ==> c.nextUser <= reply.user < c'.nextUser)
  {
    CreateOnce(c, fields);
    if n > 0 {
      ResentCreate(c, fields, n - 1);
      var c1 := Resent(c, CreateUser(fields), n - 1).0;
      CreateOnce(c1, fields);
      OnceMore(c, c1, fields, n);
      OpenedOnTop(c, c1, Exec(c1, CreateUser(fields)).0, Written(NEW_USER, fields));
    }
  }

  lemma OpenedOnTop(a: State, b: State, c: State, record: UserRecord)
    requires OpenedAs(a, b, record) && OpenedAs(b, c, record)
    ensures OpenedAs(a, c, record)
  {
  }

  /** How many accounts one create request opens. */
  function Opens(fault: Fault, c: State, fields: Fields): nat {
    match fault
    case Answer => Openings(c, fields, 1)
    case Refuse(_) => 0
    case Lose => Openings(c, fields, 1)
    case Resend(more, _) => Openings(c, fields, more + 2)
  }

  lemma CreateDelivered(fault: Fault, c: State, fields: Fields)
    ensures var (c', reply) := Deliver(fault, c, CreateUser(fields));
      && OpenedAs(c, c', Written(NEW_USER, fields)) && c'.nextUser == c.nextUser + Opens(fault, c, fields)
      && (reply.Created? || reply.Failed?)
      && (reply.Created? ==> c.nextUser <= reply.user < c'.nextUser)
  {
    CreateOnce(c, fields);
    if fault.Resend? {
      ResentCreate(c, fields, fault.more + 1);
    }
  }

  lemma OpenedFor(c: State, c': State, record: UserRecord, k: ContactId)
    requires OpenedAs(c, c', record) && IsNew(record, k)
    ensures Opened(c, c', k)
  {
  }

  lemma CreateSent(f: Faults, s: Session, k: ContactId, fields: Fields)
    requires fields.employee == Some(k)
    ensures var (s1, reply) := Send(f, s, CreateUser(fields)); var c' := s1.ctl;
      && Opened(s.ctl, c', k) && c'.nextUser == s.ctl.nextUser + Opens(f(|s.log|), s.ctl, fields)
      && (reply.Created? || reply.Failed?)
      && (reply.Created? ==>
            s.ctl.nextUser <= reply.user < c'.nextUser && c'.users[reply.user] == Written(NEW_USER, fields))
  {
    CreateDelivered(f(|s.log|), s.ctl, fields);
    OpenedFor(s.ctl, Send(f, s, CreateUser(fields)).0.ctl, Written(NEW_USER, fields), k);
  }

  /** What a create leaves: new accounts of its contact, one of which is answered with the fields that were kept. */
  lemma CreateWriteEffect(f: Faults, s: Session, ids: map<ContactId, UserId>, k: ContactId, fields: Fields)
    requires fields.employee == Some(k)
    ensures var (s1, reply) := WriteUser(f, s, None, fields); var c, c' := s.ctl, s1.ctl;
      && s1 == s.(ctl := c', log := s1.log)
      && Opened(c, c', k)
      && s.log <= s1.log
      && (forall i :: |s.log| <= i < |s1.log| ==>
            s1.log[i].request.CreateUser? && s1.log[i].request.fields.employee == Some(k))
      && (reply.Created? ==> c.nextUser <= reply.user < c'.nextUser)
      && (reply.Created? && !EmailRefused(s.log, ids, k) ==>
            c'.users[reply.user] == Written(NEW_USER, Kept(fields, s1.log, ids, k)))
  {
    CreateSent(f, s, k, fields);
    var (s1, reply) := Send(f, s, CreateUser(fields));
    LastRefusal(s.log, Event(CreateUser(fields), s.ctl, reply), ids, k);
    var rest := fields.(email := None);
    if Conflicts(reply, fields) {
      CreateSent(f, s1, k, rest);
      var (s2, reply2) := Send(f, s1, CreateUser(rest));
      LastRefusal(s1.log, Event(CreateUser(rest), s1.ctl, reply2), ids, k);
      OpenedTransitive(s.ctl, s1.ctl, s2.ctl, k);
    }
  }

  // ---- cards and policies: none of these writes a record ----

  ghost predicate NoRecordWrites(log: seq<Event>, log': seq<Event>) {
    log <= log' && forall i :: |log| <= i < |log'| ==> !log'[i].request.CreateUser? && !log'[i].request.UpdateUser?
  }

  lemma QuietTransitive(a: seq<Event>, b: seq<Event>, c: seq<Event>)
    requires NoRecordWrites(a, b) && NoRecordWrites(b, c)
    ensures NoRecordWrites(a, c)
  {
  }

  lemma {:induction false} SweepEffect(f: Faults, s: Session, u: UserId, tokens: seq<Token>, keep: Option<Token>)
    ensures var r := Sweep(f, s, u, tokens, keep);
      && Touches(s, r.s, u, None) && NoRecordWrites(s.log, r.s.log)
      && r.s.ctl.users == s.ctl.users && r.s.cache == s.cache
      && (forall t :: Holds(r.s.ctl, u, t) ==> Holds(s.ctl, u, t))
      && (forall t: Token :: Holds(s.ctl, u, t) && (t !in tokens || Some(t) == keep) ==> Holds(r.s.ctl, u, t))
      && (r.out.Fine? ==> forall t: Token :: t in tokens && Some(t) != keep ==> !Holds(r.s.ctl, u, t))
    decreases |tokens|
  {
    if tokens != [] {
      assert tokens == [tokens[0]] + tokens[1..];
      if Some(tokens[0]) == keep {
        SweepEffect(f, s, u, tokens[1..], keep);
      } else {
        SendTouches(f, s, DeleteCard(u, tokens[0]), u, None);
        var step := Call(f, s, DeleteCard(u, tokens[0]));
        if step.out.Fine? {
          SweepEffect(f, step.s, u, tokens[1..], keep);
          TouchesTransitive(s, step.s, Sweep(f, step.s, u, tokens[1..], keep).s, u, None);
          QuietTransitive(s.log, step.s.log, Sweep(f, step.s, u, tokens[1..], keep).s.log);
        }
      }
    }
  }

  lemma ReclaimEffect(f: Faults, s: Session, u: UserId, t: Token)
    requires Reclaimable(s.cache, t, u)
    ensures var r := Reclaim(f, s, u, t, s.cache.holders[t]);
      && Touches(s, r.s, u, Some(t)) && NoRecordWrites(s.log, r.s.log) && r.s.ctl.users == s.ctl.users
      && (forall a :: Holds(s.ctl, u, a) ==> Holds(r.s.ctl, u, a))
      && (forall a :: Holds(r.s.ctl, u, a) ==> Holds(s.ctl, u, a) || a == t)
      && (r.out.Fine? ==> Holds(r.s.ctl, u, t))
  {
    SendTouches(f, s, BindCard(u, t, true), u, Some(t));
  }

  lemma PlainBindEffect(f: Faults, s: Session, u: UserId, t: Token)
    ensures var step := Call(f, s, BindCard(u, t, false));
      && Touches(s, step.s, u, Some(t)) && NoRecordWrites(s.log, step.s.log)
      && step.s.ctl.users == s.ctl.users && step.s.cache == s.cache
      && (forall a :: Holds(s.ctl, u, a) ==> Holds(step.s.ctl, u, a))
      && (forall a :: Holds(step.s.ctl, u, a) ==> Holds(s.ctl, u, a) || a == t)
      && (step.out.Fine? ==> Holds(step.s.ctl, u, t))
  {
    SendTouches(f, s, BindCard(u, t, false), u, Some(t));
  }

  lemma BindEffect(f: Faults, s: Session, u: UserId, t: Token)
    ensures var r := Bind(f, s, u, t);
      && Touches(s, r.s, u, Some(t)) && NoRecordWrites(s.log, r.s.log) && r.s.ctl.users == s.ctl.users
      && (forall a :: Holds(s.ctl, u, a) ==> Holds(r.s.ctl, u, a))
      && (forall a :: Holds(r.s.ctl, u, a) ==> Holds(s.ctl, u, a) || a == t)
      && (r.out.Fine? ==> Holds(r.s.ctl, u, t))
  {
    PlainBindEffect(f, s, u, t);
    BindIsPlainOrReclaim(f, s, u, t);
    var s1 := Call(f, s, BindCard(u, t, false)).s;
    if Reclaimable(s1.cache, t, u) {
      ReclaimEffect(f, s1, u, t);
      var s2 := Reclaim(f, s1, u, t, s1.cache.holders[t]).s;
      QuietTransitive(s.log, s1.log, s2.log);
      TouchesTransitive(s, s1, s2, u, Some(t));
    }
  }

  /** The token a member's card is attached with. */
  function WantedToken(cache: Cache, card: Option<CardId>): Option<Token> {
    if card.None? then None else KnownToken(cache, card.value)
  }

  lemma AttachEffect(f: Faults, s: Session, u: UserId, card: Option<CardId>)
    ensures var r := AttachCard(f, s, u, card); var wanted := WantedToken(s.cache, card);
      && Touches(s, r.s, u, wanted) && NoRecordWrites(s.log, r.s.log) && r.s.ctl.users == s.ctl.users
      && (forall a :: Holds(s.ctl, u, a) ==> Holds(r.s.ctl, u, a))
      && (forall a: Token :: Holds(r.s.ctl, u, a) ==> Holds(s.ctl, u, a) || wanted == Some(a))
      && (r.out.Fine? && card.Some? ==> wanted.Some? && Holds(r.s.ctl, u, wanted.value))
  {
    if card.Some? && KnownToken(s.cache, card.value).Some? {
      BindEffect(f, s, u, KnownToken(s.cache, card.value).value);
    }
  }

  lemma AssignEffect(f: Faults, s: Session, u: UserId, policy: Option<string>)
    ensures var r := AssignPolicy(f, s, u, policy);
      && Touches(s, r.s, u, None) && NoRecordWrites(s.log, r.s.log)
      && r.s.ctl.bound == s.ctl.bound && r.s.cache == s.cache
      && (u in s.ctl.users ==> r.s.ctl.users[u] == s.ctl.users[u].(policies := r.s.ctl.users[u].policies))
      && (r.out.Fine? && policy.Some? && u in s.ctl.users ==> r.s.ctl.users[u].policies == [policy.value])
      && (policy.None? ==> r.s == s)
  {
  }

  // ---- the four kinds of entry ----

  lemma DeactivateEffect(f: Faults, s: Session, k: ContactId, u: UserId)
    ensures var r := DeactivateUser(f, s, k, u);
      && Touches(s, r.s, u, None) && NoRecordWrites(s.log, r.s.log)
      && (forall t :: Holds(r.s.ctl, u, t) ==> Holds(s.ctl, u, t))
      && (u in s.ctl.users ==> r.s.ctl.users[u] in {s.ctl.users[u], s.ctl.users[u].(status := DEACTIVATED)})
      && (r.out.Fine? && u in s.ctl.users ==> r.s.ctl.users[u].status == DEACTIVATED)
  {
    var tokens := CachedCards(s.cache, k);
    SweepEffect(f, s, u, tokens, None);
    var s1 := Sweep(f, s, u, tokens, None).s;
    SendTouches(f, s1, SetStatus(u, DEACTIVATED), u, None);
    var s2 := Send(f, s1, SetStatus(u, DEACTIVATED)).0;
    QuietTransitive(s.log, s1.log, s2.log);
    TouchesTransitive(s, s1, s2, u, None);
  }

  /** After a sweep of the cached list, only cards the list missed can remain, and the wanted one. */
  ghost predicate SweptTo(s: Session, s': Session, k: ContactId, u: UserId, wanted: Option<Token>) {
    forall t: Token :: Holds(s'.ctl, u, t) ==>
      wanted == Some(t) || (Holds(s.ctl, u, t) && t !in CachedCards(s.cache, k))
  }

  ghost predicate GainsNothing(s: Session, s': Session, u: UserId) {
    forall t :: Holds(s'.ctl, u, t) ==> Holds(s.ctl, u, t)
  }

  /** The record written, then the cached cards swept. */
  ghost function WriteAndSweep(f: Faults, s: Session, u: UserId, k: ContactId, fields: Fields,
                               keep: Option<Token>): Step {
    var written := WriteRecord(f, s, u, fields);
    if written.out.Raised? then written else Sweep(f, written.s, u, CachedCards(written.s.cache, k), keep)
  }

  lemma WriteAndSweepEffect(f: Faults, s: Session, ids: map<ContactId, UserId>, k: ContactId, fields: Fields,
                            keep: Option<Token>)
    requires k in ids && ids[k] in s.ctl.users
    ensures var u := ids[k]; var r := WriteAndSweep(f, s, u, k, fields, keep);
      && Touches(s, r.s, u, None) && r.s.cache == s.cache && GainsNothing(s, r.s, u)
      && r.s.ctl.users[u].status == s.ctl.users[u].status && r.s.ctl.users[u].policies == s.ctl.users[u].policies
      && r.s.ctl.users[u].employee in {s.ctl.users[u].employee, Written(s.ctl.users[u], fields).employee}
      && (r.out.Fine? && !EmailRefused(s.log, ids, k) ==>
            r.s.ctl.users[u] == Written(s.ctl.users[u], Kept(fields, r.s.log, ids, k)))
      && (r.out.Fine? ==> SweptTo(s, r.s, k, u, keep))
  {
    var u := ids[k];
    WriteRecordEffect(f, s, ids, k, fields);
    var written := WriteRecord(f, s, u, fields);
    if written.out.Fine? {
      var tokens := CachedCards(written.s.cache, k);
      SweepEffect(f, written.s, u, tokens, keep);
      var swept := Sweep(f, written.s, u, tokens, keep).s;
      TouchesTransitive(s, written.s, swept, u, None);
      RefusalStays(written.s.log, swept.log, ids, k);
    }
  }

  lemma UpdateCredentialEffect(f: Faults, s: Session, ids: map<ContactId, UserId>, p: Pair)
    requires var k := p.member.contact; p.member.name != "" && k in ids && ids[k] in s.ctl.users
    ensures var k, u := p.member.contact, ids[p.member.contact]; var r := UpdateCredential(f, s, p, u);
            var fields := CredentialFields(p.member, p.user); var wanted := WantedToken(s.cache, p.member.card);
      && Touches(s, r.s, u, wanted)
      && (forall t: Token :: Holds(r.s.ctl, u, t) ==> Holds(s.ctl, u, t) || wanted == Some(t))
      && r.s.ctl.users[u].status == s.ctl.users[u].status && r.s.ctl.users[u].policies == s.ctl.users[u].policies
      && r.s.ctl.users[u].employee == s.ctl.users[u].employee
      && (r.out.Fine? && !EmailRefused(s.log, ids, k) ==>
            r.s.ctl.users[u] == Written(s.ctl.users[u], Kept(fields, r.s.log, ids, k)))
      && (p.member.card == p.user.card ==> r.s.ctl.bound == s.ctl.bound)
      && (SweptTo(s, r.s, k, u, wanted) || GainsNothing(s, r.s, u))
      && (r.out.Fine? && p.member.card != p.user.card ==> SweptTo(s, r.s, k, u, wanted))
      && (r.out.Fine? && p.member.card != p.user.card && p.member.card.Some? ==>
            wanted.Some? && Holds(r.s.ctl, u, wanted.value))
  {
    var k, u := p.member.contact, ids[p.member.contact];
    var fields := CredentialFields(p.member, p.user);
    var wanted := WantedToken(s.cache, p.member.card);
    if p.member.card == p.user.card {
      WriteRecordEffect(f, s, ids, k, fields);
      TouchesMore(s, WriteRecord(f, s, u, fields).s, u, wanted);
    } else {
      WriteAndSweepEffect(f, s, ids, k, fields, None);
      var swept := WriteAndSweep(f, s, u, k, fields, None);
      TouchesMore(s, swept.s, u, wanted);
      if swept.out.Fine? {
        AttachEffect(f, swept.s, u, p.member.card);
        var last := AttachCard(f, swept.s, u, p.member.card).s;
        TouchesTransitive(s, swept.s, last, u, wanted);
        RefusalStays(swept.s.log, last.log, ids, k);
      }
    }
  }

  /** What every addition gives an account: its card and its policy. */
  ghost function Equip(f: Faults, s: Session, r: ResolvedMember, u: UserId): Step {
    var attached := AttachCard(f, s, u, r.card);
    if attached.out.Raised? then attached else AssignPolicy(f, attached.s, u, r.policy)
  }

  lemma EquipEffect(f: Faults, s: Session, r: ResolvedMember, u: UserId)
    requires u in s.ctl.users
    ensures var step := Equip(f, s, r, u); var wanted := WantedToken(s.cache, r.card);
      && Touches(s, step.s, u, wanted) && NoRecordWrites(s.log, step.s.log)
      && (forall t: Token :: Holds(step.s.ctl, u, t) ==> Holds(s.ctl, u, t) || wanted == Some(t))
      && step.s.ctl.users[u] == s.ctl.users[u].(policies := step.s.ctl.users[u].policies)
      && (r.policy.None? ==> step.s.ctl.users[u] == s.ctl.users[u])
      && (step.out.Fine? && r.policy.Some? ==> step.s.ctl.users[u].policies == [r.policy.value])
      && (step.out.Fine? && r.card.Some? ==> wanted.Some? && Holds(step.s.ctl, u, wanted.value))
  {
    var wanted := WantedToken(s.cache, r.card);
    AttachEffect(f, s, u, r.card);
    var attached := AttachCard(f, s, u, r.card);
    if attached.out.Fine? {
      AssignEffect(f, attached.s, u, r.policy);
      var granted := AssignPolicy(f, attached.s, u, r.policy);
      TouchesMore(attached.s, granted.s, u, wanted);
      TouchesTransitive(s, attached.s, granted.s, u, wanted);
      QuietTransitive(s.log, attached.s.log, granted.s.log);
    }
  }

  function SwitchedOn(record: UserRecord, policy: Option<string>): UserRecord {
    record.(status := ACTIVE, policies := if policy.Some? then [policy.value] else record.policies)
  }

  lemma SwitchOnEffect(f: Faults, s: Session, r: ResolvedMember, u: UserId)
    requires u in s.ctl.users
    ensures var step := SwitchOn(f, s, r, u); var wanted := WantedToken(s.cache, r.card);
      && Touches(s, step.s, u, wanted) && NoRecordWrites(s.log, step.s.log)
      && (forall t: Token :: Holds(step.s.ctl, u, t) ==> Holds(s.ctl, u, t) || wanted == Some(t))
      && step.s.ctl.users[u].employee == s.ctl.users[u].employee
      && step.s.ctl.users[u].status in {s.ctl.users[u].status, ACTIVE}
      && (step.out.Fine? ==> step.s.ctl.users[u] == SwitchedOn(s.ctl.users[u], r.policy))
      && (step.out.Fine? && r.card.Some? ==> wanted.Some? && Holds(step.s.ctl, u, wanted.value))
  {
    var wanted := WantedToken(s.cache, r.card);
    EquipEffect(f, s, r, u);
    var equipped := Equip(f, s, r, u);
    SwitchOnUnfolds(f, s, r, u);
    if equipped.out.Fine? {
      SendTouches(f, equipped.s, SetStatus(u, ACTIVE), u, wanted);
      var last := Send(f, equipped.s, SetStatus(u, ACTIVE)).0;
      TouchesTransitive(s, equipped.s, last, u, wanted);
      QuietTransitive(s.log, equipped.s.log, last.log);
    }
  }

  /** Switching on is equipping, and then one request. */
  lemma SwitchOnUnfolds(f: Faults, s: Session, r: ResolvedMember, u: UserId)
    ensures var equipped := Equip(f, s, r, u);
      SwitchOn(f, s, r, u) == if equipped.out.Raised? then equipped else Call(f, equipped.s, SetStatus(u, ACTIVE))
  {
  }

  function ReactivationFields(r: ResolvedMember): Fields
    requires r.name != ""
  {
    Fields(Some(SplitName(r.name)), Some(r.contact), Some(EmailText(r.email)))
  }

  lemma ReactivateEffect(f: Faults, s: Session, ids: map<ContactId, UserId>, r: ResolvedMember)
    requires var k := r.contact; r.name != "" && k in ids && ids[k] in s.ctl.users
    ensures var k, u := r.contact, ids[r.contact]; var step := Reactivate(f, s, r, u);
            var wanted := WantedToken(s.cache, r.card);
      && Touches(s, step.s, u, wanted)
      && (forall t: Token :: Holds(step.s.ctl, u, t) ==> Holds(s.ctl, u, t) || wanted == Some(t))
      && step.s.ctl.users[u].employee in {s.ctl.users[u].employee, Some(k)}
      && step.s.ctl.users[u].status in {s.ctl.users[u].status, ACTIVE}
      && (step.out.Fine? && !EmailRefused(s.log, ids, k) ==>
            step.s.ctl.users[u] ==
              SwitchedOn(Written(s.ctl.users[u], Kept(ReactivationFields(r), step.s.log, ids, k)), r.policy))
      && (SweptTo(s, step.s, k, u, wanted) || GainsNothing(s, step.s, u))
      && (step.out.Fine? ==> SweptTo(s, step.s, k, u, wanted))
      && (step.out.Fine? && r.card.Some? ==> wanted.Some? && Holds(step.s.ctl, u, wanted.value))
  {
    var k, u := r.contact, ids[r.contact];
    var wanted := WantedToken(s.cache, r.card);
    WriteAndSweepEffect(f, s, ids, k, ReactivationFields(r), wanted);
    ReactivateUnfolds(f, s, r, u);
    var swept := WriteAndSweep(f, s, u, k, ReactivationFields(r), wanted);
    TouchesMore(s, swept.s, u, wanted);
    if swept.out.Fine? {
      SwitchOnEffect(f, swept.s, r, u);
      var last := SwitchOn(f, swept.s, r, u).s;
      TouchesTransitive(s, swept.s, last, u, wanted);
      RefusalStays(swept.s.log, last.log, ids, k);
    }
  }

  lemma ReactivateUnfolds(f: Faults, s: Session, r: ResolvedMember, u: UserId)
    requires r.name != ""
    ensures var swept := WriteAndSweep(f, s, u, r.contact, ReactivationFields(r), WantedToken(s.cache, r.card));
      Reactivate(f, s, r, u) == if swept.out.Raised? then swept else SwitchOn(f, swept.s, r, u)
  {
  }

  function CreationFields(r: ResolvedMember): Fields
    requires r.name != ""
  {
    Fields(Some(SplitName(r.name)), Some(r.contact), r.email)
  }

  /** The session in which a new account is known to the client. */
  function Registered(s: Session, k: ContactId, u: UserId): Session {
    s.(cache := s.cache.(userIds := s.cache.userIds[k := u]))
  }
}
