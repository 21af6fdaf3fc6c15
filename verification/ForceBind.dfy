/**
A forced bind never takes a card from an active user, whatever requests fail.
*/
module ForceBind {
  import opened Models
  import opened Controller
  import opened Protocol
  import opened Safety
  import opened Reconciler
  import opened Snapshot
  import opened CardIndex

  /** The fixed part of one run: where it started, which members it writes, and the tokens of their cards. */
  datatype Run = Run(c0: State, cache0: Cache, writers: seq<ResolvedMember>, tokens: map<CardId, Token>)

  /** Contact `k` is to be given token `t`. */
  ghost predicate Wants(x: Run, k: ContactId, t: Token) {
    exists i :: 0 <= i < |x.writers| && x.writers[i].contact == k && TokenOf(x, x.writers[i]) == Some(t)
  }

  function TokenOf(x: Run, w: ResolvedMember): Option<Token> {
    if w.card.None? then None else Lookup(x.tokens, w.card.value)
  }

  /** Written cards are distinct and so are their tokens: the guard, and an injective card list. */
  ghost predicate OneWanter(x: Run) {
    && (forall i, j :: 0 <= i < j < |x.writers| && x.writers[i].card.Some? ==> x.writers[i].card != x.writers[j].card)
    && (forall a, b :: a in x.tokens && b in x.tokens && x.tokens[a] == x.tokens[b] ==> a == b)
  }

  /** Each contact is written at most once. */
  ghost predicate OneEntry(x: Run) {
    forall i, j :: 0 <= i < j < |x.writers| ==> x.writers[i].contact != x.writers[j].contact
  }

  lemma WanterIsUnique(x: Run, k: ContactId, k': ContactId, t: Token)
    requires OneWanter(x) && Wants(x, k, t) && Wants(x, k', t)
    ensures k == k'
  {
    var i :| 0 <= i < |x.writers| && x.writers[i].contact == k && TokenOf(x, x.writers[i]) == Some(t);
    var j :| 0 <= j < |x.writers| && x.writers[j].contact == k' && TokenOf(x, x.writers[j]) == Some(t);
    var a, b := x.writers[i].card.value, x.writers[j].card.value;
    assert x.tokens[a] == x.tokens[b];
  }

  // ---- the invariant ----

  /** User `u` is the user of a contact that is to be given token `t`. */
  ghost predicate Entitled(x: Run, ids: map<ContactId, UserId>, u: UserId, t: Token) {
    exists k :: k in ids && ids[k] == u && Wants(x, k, t)
  }

  /** The contacts known at the start keep their user; later ones have users created in this run. */
  ghost predicate IdsGrow(x: Run, c: State, ids: map<ContactId, UserId>) {
    && (forall k :: k in x.cache0.userIds ==> k in ids && ids[k] == x.cache0.userIds[k])
    && (forall k :: k in ids && k !in x.cache0.userIds ==> ids[k] !in x.c0.users)
    && (forall u :: u in x.c0.users ==> u in c.users)
    && (forall k :: k in ids ==> ids[k] in c.users)
    && (forall k, k' :: k in ids && k' in ids && ids[k] == ids[k'] ==> k == k')
  }

  /** A user holds a card from before the run, or because it is entitled to it. */
  ghost predicate BindingsExplained(x: Run, c: State, ids: map<ContactId, UserId>) {
    forall t :: t in c.bound ==> Holds(x.c0, c.bound[t], t) || Entitled(x, ids, c.bound[t], t)
  }

  /** The holder cache still names the holders of the snapshot. */
  ghost predicate HoldersShrink(x: Run, holders: map<Token, Holder>) {
    forall t :: t in holders ==> t in x.c0.bound && holders[t].user == x.c0.bound[t]
  }

  /** A cached card list misses no card its user holds, except one the user is entitled to. */
  ghost predicate CardListsCover(x: Run, c: State, cache: Cache) {
    forall k, t :: k in x.cache0.cards && k in cache.userIds && Holds(c, cache.userIds[k], t) ==>
      (k in cache.cards && t in cache.cards[k]) || Entitled(x, cache.userIds, cache.userIds[k], t)
  }

  /** A stale "disabled" entry about an active user only concerns a card that user is entitled to. */
  ghost predicate StaleIsHarmless(x: Run, c: State, cache: Cache) {
    forall t :: LooksDisabled(c, cache, t) ==> Entitled(x, cache.userIds, c.bound[t], t)
  }

  /** The cache calls the holder of `t` disabled although it is active now. */
  predicate LooksDisabled(c: State, cache: Cache, t: Token) {
    && t in c.bound && t in cache.holders && cache.holders[t].user == c.bound[t]
    && IsDisabled(cache.holders[t].status)
    && c.bound[t] in c.users && c.users[c.bound[t]].status == ACTIVE
  }

  ghost predicate Inv(x: Run, c: State, cache: Cache) {
    && WellFormed(c)
    && cache.tokenMap == x.cache0.tokenMap
    && IdsGrow(x, c, cache.userIds)
    && BindingsExplained(x, c, cache.userIds)
    && HoldersShrink(x, cache.holders)
    && CardListsCover(x, c, cache)
    && StaleIsHarmless(x, c, cache)
  }

  /** The safety property of one request. */
  ghost predicate Harmless(e: Event) {
    e.request.BindCard? && e.request.force && e.request.token in e.before.bound ==>
      var loser := e.before.bound[e.request.token];
      loser == e.request.user || (loser in e.before.users && e.before.users[loser].status != ACTIVE)
  }

  ghost predicate AllHarmless(log: seq<Event>) {
    forall i :: 0 <= i < |log| ==> Harmless(log[i])
  }

  /** Cards are only ever bound to users entitled to them. */
  ghost predicate BindsEntitled(x: Run, ids: map<ContactId, UserId>, log: seq<Event>) {
    forall i :: 0 <= i < |log| && log[i].request.BindCard? ==>
      Entitled(x, ids, log[i].request.user, log[i].request.token)
  }

  /** The account of member `r` is ready to be switched on: its card, no other card, and its policy. */
  ghost predicate Ready(x: Run, c: State, u: UserId, r: ResolvedMember) {
    && (forall t: Token :: Holds(c, u, t) ==> TokenOf(x, r) == Some(t))
    && (r.card.Some? ==> TokenOf(x, r).Some? && Holds(c, u, TokenOf(x, r).value))
    && (r.policy.Some? ==> u in c.users && c.users[u].policies == [r.policy.value])
  }

  ghost predicate ReadyFor(x: Run, c: State, ids: map<ContactId, UserId>, u: UserId) {
    exists r :: r in x.writers && r.contact in ids && ids[r.contact] == u && Ready(x, c, u, r)
  }

  /** Accounts are only ever switched on when ready. */
  ghost predicate ActivationsReady(x: Run, ids: map<ContactId, UserId>, log: seq<Event>) {
    forall i :: 0 <= i < |log| && log[i].request.SetStatus? && log[i].request.status == ACTIVE ==>
      ReadyFor(x, log[i].before, ids, log[i].request.user)
  }

  ghost predicate Good(x: Run, s: Session) {
    && Inv(x, s.ctl, s.cache) && AllHarmless(s.log)
    && BindsEntitled(x, s.cache.userIds, s.log)
    && ActivationsReady(x, s.cache.userIds, s.log)
  }

  // ---- requests ----

  /** When a request may be sent: cards go to entitled users, and only an account that is ready is switched on. */
  ghost predicate Allowed(x: Run, c: State, cache: Cache, r: Request) {
    match r
    case BindCard(u, t, force) =>
      Entitled(x, cache.userIds, u, t) && Harmless(Event(r, c, Done))
    case SetStatus(u, status) =>
      status == ACTIVE ==> ReadyFor(x, c, cache.userIds, u)
    case ImportCards(_) => false
    case _ => true
  }

  /** Switching an account on when it is ready: all its cards are its own to have. */
  lemma SwitchOnKeepsInv(x: Run, c: State, cache: Cache, u: UserId)
    requires Inv(x, c, cache) && ReadyFor(x, c, cache.userIds, u) && u in c.users
    ensures Inv(x, Exec(c, SetStatus(u, ACTIVE)).0, cache)
  {
  }

  lemma ExecKeepsInv(x: Run, c: State, cache: Cache, r: Request)
    requires Inv(x, c, cache) && Allowed(x, c, cache, r)
    ensures Inv(x, Exec(c, r).0, cache)
  {
    if r.SetStatus? && r.status == ACTIVE && r.user in c.users {
      SwitchOnKeepsInv(x, c, cache, r.user);
    } else {
      ExecKeepsWellFormed(c, r);
    }
  }

  /** The answer of a create names an account that was not there before. */
  ghost predicate NamesNew(c: State, c': State, reply: Reply) {
    reply.Created? ==> c.nextUser <= reply.user && reply.user in c'.users
  }

  lemma {:induction false} ResentCreateKeepsInv(x: Run, c: State, cache: Cache, fields: Fields, n: nat)
    requires Inv(x, c, cache)
    ensures var (c', reply) := Resent(c, CreateUser(fields), n);
      Inv(x, c', cache) && c'.bound == c.bound && c.nextUser <= c'.nextUser && NamesNew(c, c', reply)
  {
    if n == 0 {
      ExecKeepsInv(x, c, cache, CreateUser(fields));
    } else {
      ResentCreateKeepsInv(x, c, cache, fields, n - 1);
      ExecKeepsInv(x, Resent(c, CreateUser(fields), n - 1).0, cache, CreateUser(fields));
    }
  }

  /** Creates may be carried out many times; for everything else once is all that counts. */
  lemma DeliverKeepsInv(x: Run, fault: Fault, c: State, cache: Cache, r: Request)
    requires Inv(x, c, cache) && Allowed(x, c, cache, r)
    ensures var (c', reply) := Deliver(fault, c, r);
      && Inv(x, c', cache) && NamesNew(c, c', reply)
      && (r.CreateUser? || r.UpdateUser? || r.SetStatus? ==> c'.bound == c.bound)
  {
    ExecKeepsInv(x, c, cache, r);
    if fault.Resend? && r.CreateUser? {
      ResentCreateKeepsInv(x, c, cache, r.fields, fault.more + 1);
    }
  }

  lemma SendKeepsGood(x: Run, f: Faults, s: Session, r: Request)
    requires Good(x, s) && Allowed(x, s.ctl, s.cache, r)
    ensures Good(x, Send(f, s, r).0)
    ensures Send(f, s, r).0.cache == s.cache
  {
    DeliverKeepsInv(x, f(|s.log|), s.ctl, s.cache, r);
    var s' := Send(f, s, r).0;
    assert forall i :: 0 <= i < |s.log| ==> s'.log[i] == s.log[i];
  }

  // ---- procedures ----

  /** The run's fixed part comes from one snapshot. */
  ghost predicate RunOk(x: Run) {
    && OneWanter(x) && OneEntry(x) && WellFormed(x.c0)
    && x.tokens == (if x.cache0.tokenMap.Some? then x.cache0.tokenMap.value else map[])
    && x.cache0.cards.Keys == x.cache0.userIds.Keys
  }

  lemma {:induction false} SweepKeepsGood(x: Run, f: Faults, s: Session, u: UserId, tokens: seq<Token>,
                                          keep: Option<Token>)
    requires Good(x, s)
    ensures var r := Sweep(f, s, u, tokens, keep);
      && Good(x, r.s) && r.s.cache == s.cache && r.s.ctl.users == s.ctl.users
      && (forall t :: t in r.s.ctl.bound ==> t in s.ctl.bound && r.s.ctl.bound[t] == s.ctl.bound[t])
      && (r.out.Fine? ==> forall t :: t in tokens && Some(t) != keep ==> !Holds(r.s.ctl, u, t))
    decreases |tokens|
  {
    if tokens != [] {
      if Some(tokens[0]) == keep {
        SweepKeepsGood(x, f, s, u, tokens[1..], keep);
      } else {
        SendKeepsGood(x, f, s, DeleteCard(u, tokens[0]));
        var step := Call(f, s, DeleteCard(u, tokens[0]));
        if step.out.Fine? {
          SweepKeepsGood(x, f, step.s, u, tokens[1..], keep);
        }
      }
    }
  }

  /** `u` was created in the session and nothing refers to it yet. */
  ghost predicate FreshUser(x: Run, s: Session, u: UserId) {
    && u in s.ctl.users && u !in x.c0.users
    && (forall k :: k in s.cache.userIds ==> s.cache.userIds[k] != u)
    && (forall t :: !Holds(s.ctl, u, t))
  }

  lemma SendWriteKeepsGood(x: Run, f: Faults, s: Session, target: Option<UserId>, fields: Fields)
    requires Good(x, s)
    ensures var (s', reply) := Send(f, s, WriteRequest(target, fields));
      && Good(x, s') && s'.cache == s.cache && s'.ctl.bound == s.ctl.bound
      && (reply.Created? ==> FreshUser(x, s', reply.user))
  {
    SendKeepsGood(x, f, s, WriteRequest(target, fields));
    DeliverKeepsInv(x, f(|s.log|), s.ctl, s.cache, WriteRequest(target, fields));
  }

  lemma WriteUserKeepsGood(x: Run, f: Faults, s: Session, target: Option<UserId>, fields: Fields)
    requires Good(x, s)
    ensures var (s', reply) := WriteUser(f, s, target, fields);
      && Good(x, s') && s'.cache == s.cache && s'.ctl.bound == s.ctl.bound
      && (reply.Created? ==> FreshUser(x, s', reply.user))
  {
    SendWriteKeepsGood(x, f, s, target, fields);
    var s1 := Send(f, s, WriteRequest(target, fields)).0;
    SendWriteKeepsGood(x, f, s1, target, fields.(email := None));
  }

  lemma {:induction false} WithoutOne(tokens: seq<Token>, t: Token)
    ensures forall a :: a in Without(tokens, t) <==> a in tokens && a != t
    ensures NoDup(tokens) ==> NoDup(Without(tokens, t))
  {
    if tokens != [] {
      var front, last := tokens[..|tokens| - 1], tokens[|tokens| - 1];
      WithoutOne(front, t);
      assert tokens == front + [last];
      assert last in front ==> !NoDup(tokens);
    }
  }

  /** The holder of an entitled user's card that looks disabled really is not active. */
  lemma ReclaimIsHarmless(x: Run, c: State, cache: Cache, u: UserId, t: Token)
    requires RunOk(x) && Inv(x, c, cache) && Entitled(x, cache.userIds, u, t)
    requires t in cache.holders && IsDisabled(cache.holders[t].status)
    ensures Harmless(Event(BindCard(u, t, true), c, Done))
  {
    if t in c.bound && c.bound[t] != u {
      var v := c.bound[t];
      if Entitled(x, cache.userIds, v, t) {
        EntitledIsUnique(x, cache.userIds, u, v, t);
      }
      assert Holds(x.c0, v, t);
      assert !LooksDisabled(c, cache, t);
    }
  }

  lemma EntitledIsUnique(x: Run, ids: map<ContactId, UserId>, u: UserId, v: UserId, t: Token)
    requires OneWanter(x) && Entitled(x, ids, u, t) && Entitled(x, ids, v, t)
    ensures u == v
  {
    var k :| k in ids && ids[k] == u && Wants(x, k, t);
    var k' :| k' in ids && ids[k'] == v && Wants(x, k', t);
    WanterIsUnique(x, k, k', t);
  }

  lemma ForgetKeepsInv(x: Run, c: State, cache: Cache, u: UserId, t: Token, h: Holder)
    requires Inv(x, c, cache) && Entitled(x, cache.userIds, u, t) && Holds(c, u, t)
    ensures Inv(x, c, ForgetHolderCard(cache.(holders := cache.holders - {t}), h, t))
  {
    var cache' := ForgetHolderCard(cache.(holders := cache.holders - {t}), h, t);
    if h.employee.Some? && h.employee.value in cache.cards {
      WithoutOne(cache.cards[h.employee.value], t);
    }
    forall k, a | k in x.cache0.cards && k in cache.userIds && Holds(c, cache.userIds[k], a)
      ensures (k in cache'.cards && a in cache'.cards[k]) || Entitled(x, cache.userIds, cache.userIds[k], a)
    {
    }
    forall a | LooksDisabled(c, cache', a) ensures Entitled(x, cache.userIds, c.bound[a], a) {
      assert LooksDisabled(c, cache, a);
    }
  }

  lemma ReclaimKeepsGood(x: Run, f: Faults, s: Session, u: UserId, t: Token)
    requires RunOk(x) && Good(x, s) && Entitled(x, s.cache.userIds, u, t)
    requires t in s.cache.holders && IsDisabled(s.cache.holders[t].status)
    ensures var r := Reclaim(f, s, u, t, s.cache.holders[t]);
      && Good(x, r.s) && r.s.cache.userIds == s.cache.userIds
      && (r.out.Fine? ==> Holds(r.s.ctl, u, t))
      && (forall a :: Holds(r.s.ctl, u, a) ==> Holds(s.ctl, u, a) || a == t)
  {
    var h := s.cache.holders[t];
    ReclaimIsHarmless(x, s.ctl, s.cache, u, t);
    SendKeepsGood(x, f, s, BindCard(u, t, true));
    var step := Call(f, s, BindCard(u, t, true));
    if step.out.Fine? {
      ForgetKeepsInv(x, step.s.ctl, step.s.cache, u, t, h);
    }
  }

  lemma PlainBindKeepsGood(x: Run, f: Faults, s: Session, u: UserId, t: Token)
    requires Good(x, s) && Entitled(x, s.cache.userIds, u, t)
    ensures var step := Call(f, s, BindCard(u, t, false));
      && Good(x, step.s) && step.s.cache == s.cache
      && (step.out.Fine? ==> Holds(step.s.ctl, u, t))
      && (forall a :: Holds(step.s.ctl, u, a) ==> Holds(s.ctl, u, a) || a == t)
  {
    SendKeepsGood(x, f, s, BindCard(u, t, false));
  }

  lemma BindKeepsGood(x: Run, f: Faults, s: Session, u: UserId, t: Token)
    requires RunOk(x) && Good(x, s) && Entitled(x, s.cache.userIds, u, t)
    ensures var r := Bind(f, s, u, t);
      && Good(x, r.s) && r.s.cache.userIds == s.cache.userIds
      && (r.out.Fine? ==> Holds(r.s.ctl, u, t))
      && (forall a :: Holds(r.s.ctl, u, a) ==> Holds(s.ctl, u, a) || a == t)
  {
    PlainBindKeepsGood(x, f, s, u, t);
    var step := Call(f, s, BindCard(u, t, false));
    if t in step.s.cache.holders && IsDisabled(step.s.cache.holders[t].status) {
      ReclaimKeepsGood(x, f, step.s, u, t);
    }
    BindIsPlainOrReclaim(f, s, u, t);
  }

  lemma AttachKeepsGood(x: Run, f: Faults, s: Session, r: ResolvedMember, u: UserId)
    requires RunOk(x) && Good(x, s) && r in x.writers
    requires r.contact in s.cache.userIds && s.cache.userIds[r.contact] == u
    ensures var step := AttachCard(f, s, u, r.card);
      && Good(x, step.s) && step.s.cache.userIds == s.cache.userIds
      && (forall t: Token :: Holds(step.s.ctl, u, t) ==> Holds(s.ctl, u, t) || TokenOf(x, r) == Some(t))
      && (step.out.Fine? && r.card.Some? ==> TokenOf(x, r).Some? && Holds(step.s.ctl, u, TokenOf(x, r).value))
  {
    if r.card.Some? && KnownToken(s.cache, r.card.value).Some? {
      var t := KnownToken(s.cache, r.card.value).value;
      assert Wants(x, r.contact, t);
      BindKeepsGood(x, f, s, u, t);
    }
  }

  lemma DeactivateKeepsGood(x: Run, f: Faults, s: Session, k: ContactId, u: UserId)
    requires Good(x, s)
    ensures Good(x, DeactivateUser(f, s, k, u).s)
  {
    SweepKeepsGood(x, f, s, u, CachedCards(s.cache, k), None);
    var swept := Sweep(f, s, u, CachedCards(s.cache, k), None).s;
    StatusesDiffer();
    SendKeepsGood(x, f, swept, SetStatus(u, DEACTIVATED));
    var step := Call(f, swept, SetStatus(u, DEACTIVATED));
    if step.out.Fine? {
      var cache, cache' := step.s.cache, MarkDeactivated(step.s.cache, k, u);
      assert u in step.s.ctl.users && step.s.ctl.users[u].status == DEACTIVATED;
      forall t | LooksDisabled(step.s.ctl, cache', t) ensures LooksDisabled(step.s.ctl, cache, t) {
      }
    }
  }

  lemma UpdateCredentialKeepsGood(x: Run, f: Faults, s: Session, p: Pair, u: UserId)
    requires RunOk(x) && Good(x, s) && p.member in x.writers && p.member.name != ""
    requires p.member.contact in s.cache.userIds && s.cache.userIds[p.member.contact] == u
    ensures Good(x, UpdateCredential(f, s, p, u).s)
  {
    var fields := CredentialFields(p.member, p.user);
    WriteUserKeepsGood(x, f, s, Some(u), fields);
    var written := WriteRecord(f, s, u, fields);
    if written.out.Fine? && p.member.card != p.user.card {
      var tokens := CachedCards(written.s.cache, p.member.contact);
      SweepKeepsGood(x, f, written.s, u, tokens, None);
      var swept := Sweep(f, written.s, u, tokens, None);
      if swept.out.Fine? {
        AttachKeepsGood(x, f, swept.s, p.member, u);
      }
    }
  }

  lemma ReactivateKeepsGood(x: Run, f: Faults, s: Session, r: ResolvedMember, u: UserId)
    requires RunOk(x) && Good(x, s) && r in x.writers && r.name != ""
    requires r.contact in s.cache.userIds && s.cache.userIds[r.contact] == u
    ensures Good(x, Reactivate(f, s, r, u).s)
  {
    var fields := Fields(Some(Codec.SplitName(r.name)), Some(r.contact), Some(EmailText(r.email)));
    WriteUserKeepsGood(x, f, s, Some(u), fields);
    var written := WriteRecord(f, s, u, fields);
    if written.out.Fine? {
      var keep := if r.card.None? then None else KnownToken(written.s.cache, r.card.value);
      var tokens := CachedCards(written.s.cache, r.contact);
      SweepKeepsGood(x, f, written.s, u, tokens, keep);
      var swept := Sweep(f, written.s, u, tokens, keep);
      if swept.out.Fine? {
        SweptHoldsOnlyWanted(x, swept.s.ctl, swept.s.cache, r, u);
        SwitchOnKeepsGood(x, f, swept.s, r, u);
      }
    }
  }

  lemma SwitchOnKeepsGood(x: Run, f: Faults, s: Session, r: ResolvedMember, u: UserId)
    requires RunOk(x) && Good(x, s) && r in x.writers
    requires r.contact in s.cache.userIds && s.cache.userIds[r.contact] == u
    requires forall t: Token :: Holds(s.ctl, u, t) ==> TokenOf(x, r) == Some(t)
    ensures Good(x, SwitchOn(f, s, r, u).s)
  {
    AttachKeepsGood(x, f, s, r, u);
    var attached := AttachCard(f, s, u, r.card);
    if attached.out.Fine? {
      AssignKeepsGood(x, f, attached.s, u, r.policy);
      var granted := AssignPolicy(f, attached.s, u, r.policy);
      if granted.out.Fine? {
        assert Ready(x, granted.s.ctl, u, r);
        SendKeepsGood(x, f, granted.s, SetStatus(u, ACTIVE));
      }
    }
  }

  lemma AssignKeepsGood(x: Run, f: Faults, s: Session, u: UserId, policy: Option<string>)
    requires Good(x, s)
    ensures var step := AssignPolicy(f, s, u, policy);
      && Good(x, step.s) && step.s.cache == s.cache && step.s.ctl.bound == s.ctl.bound
      && (step.out.Fine? && policy.Some? ==> u in step.s.ctl.users && step.s.ctl.users[u].policies == [policy.value])
  {
    if policy.Some? {
      SendKeepsGood(x, f, s, SetPolicies(u, [policy.value]));
    }
  }

  /** A new user enters the caches. */
  lemma RegisterKeepsGood(x: Run, s: Session, k: ContactId, u: UserId)
    requires RunOk(x) && Good(x, s) && FreshUser(x, s, u) && k !in s.cache.userIds
    ensures Good(x, s.(cache := s.cache.(userIds := s.cache.userIds[k := u])))
  {
    var ids, ids' := s.cache.userIds, s.cache.userIds[k := u];
    forall v, t | Entitled(x, ids, v, t) ensures Entitled(x, ids', v, t) {
      var j :| j in ids && ids[j] == v && Wants(x, j, t);
      assert j in ids' && ids'[j] == v;
    }
  }

  lemma CreateKeepsGood(x: Run, f: Faults, s: Session, r: ResolvedMember)
    requires RunOk(x) && Good(x, s) && r in x.writers && r.name != ""
    requires r.contact !in s.cache.userIds
    ensures Good(x, Create(f, s, r).s)
  {
    var fields := Fields(Some(Codec.SplitName(r.name)), Some(r.contact), r.email);
    WriteUserKeepsGood(x, f, s, None, fields);
    var (s1, reply) := WriteUser(f, s, None, fields);
    if reply.Created? {
      var u := reply.user;
      RegisterKeepsGood(x, s1, r.contact, u);
      var s2 := s1.(cache := s1.cache.(userIds := s1.cache.userIds[r.contact := u]));
      AttachKeepsGood(x, f, s2, r, u);
      var attached := AttachCard(f, s2, u, r.card);
      if attached.out.Fine? {
        AssignKeepsGood(x, f, attached.s, u, r.policy);
      }
    }
  }

  // ---- runs ----

  /** The entry writes a member of the run. */
  predicate TaskInRun(x: Run, t: Task) {
    (t.Credential? ==> t.pair.member in x.writers) && (t.Add? ==> t.member in x.writers)
  }

  lemma RunTaskKeepsGood(x: Run, f: Faults, s: Session, t: Task)
    requires RunOk(x) && Good(x, s) && Named(t) && TaskInRun(x, t)
    ensures Good(x, RunTask(f, s, t))
  {
    var k := TaskContact(t);
    if t.Add? {
      if k in s.cache.userIds {
        ReactivateKeepsGood(x, f, s, t.member, s.cache.userIds[k]);
      } else {
        CreateKeepsGood(x, f, s, t.member);
      }
    } else if k in s.cache.userIds {
      var u := s.cache.userIds[k];
      match t
      case Deactivate(_) => DeactivateKeepsGood(x, f, s, k, u);
      case Credential(p) => UpdateCredentialKeepsGood(x, f, s, p, u);
      case Policy(p) => AssignKeepsGood(x, f, s, u, p.member.policy);
    }
  }

  lemma {:induction false} RunTasksKeepsGood(x: Run, f: Faults, s: Session, ts: seq<Task>)
    requires RunOk(x) && Good(x, s) && AllNamed(ts)
    requires forall i :: 0 <= i < |ts| ==> TaskInRun(x, ts[i])
    ensures Good(x, RunTasks(f, s, ts))
  {
    if ts != [] {
      RunTasksKeepsGood(x, f, s, ts[..|ts| - 1]);
      RunTaskKeepsGood(x, f, RunTasks(f, s, ts[..|ts| - 1]), ts[|ts| - 1]);
    }
  }

  /** After a complete sweep a user holds nothing but the card its member wants. */
  lemma SweptHoldsOnlyWanted(x: Run, c: State, cache: Cache, r: ResolvedMember, u: UserId)
    requires RunOk(x) && Inv(x, c, cache) && r in x.writers
    requires r.contact in cache.userIds && cache.userIds[r.contact] == u
    requires forall t :: t in CachedCards(cache, r.contact) && Some(t) != TokenOf(x, r) ==> !Holds(c, u, t)
    ensures forall t: Token :: Holds(c, u, t) ==> TokenOf(x, r) == Some(t)
  {
  }

  lemma ActiveIsNotDisabled()
    ensures !IsDisabled(ACTIVE)
  {
  }

  /** Only listings were requested: what fetching the users leaves behind. */
  ghost predicate ReadsOnly(log: seq<Event>) {
    forall i :: 0 <= i < |log| ==> log[i].request.GetUsers? || log[i].request.GetCards?
  }

  predicate SameCard(a: Request, b: Request) {
    a.BindCard? && b.BindCard? && a.token == b.token
  }

  /** No card is offered to two users. */
  ghost predicate OneUserPerCard(log: seq<Event>) {
    forall i, j :: 0 <= i < j < |log| && SameCard(log[i].request, log[j].request) ==>
      log[i].request.user == log[j].request.user
  }

  /** The run that a difference starts once the shared prerequisite is done. */
  function RunOf(s: Session, d: Diff): Run {
    Run(s.ctl, s.cache, Writers(d), if s.cache.tokenMap.Some? then s.cache.tokenMap.value else map[])
  }

  /** No contact is written twice: what the buckets of a computed difference guarantee. */
  ghost predicate OneEntryEach(d: Diff) {
    var ws := Writers(d);
    forall i, j :: 0 <= i < j < |ws| ==> ws[i].contact != ws[j].contact
  }

  lemma RunStartsGood(s0: Session, s: Session, d: Diff)
    requires WellFormed(s0.ctl) && Agrees(s0.cache, s0.ctl) && ReadsOnly(s0.log)
    requires OnlyIndexed(s0, s) && WellFormed(s.ctl) && DistinctCards(d) && OneEntryEach(d)
    requires s.cache.tokenMap.Some? ==> CardsLoaded(s.cache, s.ctl)
    ensures RunOk(RunOf(s, d)) && Good(RunOf(s, d), s)
  {
    var x := RunOf(s, d);
    if s.cache.tokenMap.Some? {
      ControllerIndexes(s.cache, s.ctl);
    }
    ActiveIsNotDisabled();
  }

  lemma {:induction false} TasksInRun(x: Run, d: Diff)
    requires x.writers == Writers(d)
    ensures forall i :: 0 <= i < |Tasks(d)| ==> TaskInRun(x, Tasks(d)[i])
  {
    var ws := Writers(d);
    forall i | 0 <= i < |d.toAdd| ensures d.toAdd[i] in ws {
      assert ws[i] == d.toAdd[i];
    }
    forall i | 0 <= i < |d.toUpdateCredential| ensures d.toUpdateCredential[i].member in ws {
      assert ws[|d.toAdd| + i] == d.toUpdateCredential[i].member;
    }
  }

  lemma DiffWritesOnce(members: seq<ResolvedMember>, users: seq<UnifiUser>, d: Diff)
    requires IsDiff(members, users, d)
    ensures OneEntryEach(d)
  {
    Reported(members, users, d);
    var ws, n := Writers(d), |d.toAdd|;
    var wanted, present := IndexWanted(members), IndexPresent(users);
    forall i | 0 <= i < |ws|
      ensures i < n ==> ws[i] == d.toAdd[i] && Reconciler.Adds(ws[i].contact, wanted, present)
      ensures i >= n ==> UpdatesCredential(ws[i].contact, wanted, present) &&
                         d.toUpdateCredential[i - n] == Pair(wanted[ws[i].contact], present[ws[i].contact])
    {
      if i >= n {
        assert d.toUpdateCredential[i - n] in d.toUpdateCredential;
      }
    }
    forall i, j | 0 <= i < j < |ws| ensures ws[i].contact != ws[j].contact {
      if j < n {
        assert d.toAdd[i] != d.toAdd[j];
      } else if i >= n {
        assert d.toUpdateCredential[i - n] != d.toUpdateCredential[j - n];
      }
    }
  }

  /** Whatever requests fail and however, the state at the end of the run satisfies the invariant. */
  lemma ApplyStaysGood(f: Faults, cfg: Config, s: Session, d: Diff)
    requires WellFormed(s.ctl) && Agrees(s.cache, s.ctl) && ReadsOnly(s.log)
    requires CardsInRange(d) && DistinctCards(d) && OneEntryEach(d) && NamesOk(d) && cfg.facility < Codec.FACILITY_CODES
    ensures var pre := PreImport(f, cfg, s.(failures := []), d);
      && (pre.out.Fine? ==> RunOk(RunOf(pre.s, d)) && Good(RunOf(pre.s, d), Apply(f, cfg, s, d).s))
      && (pre.out.Raised? ==> OnlyIndexed(s.(failures := []), Apply(f, cfg, s, d).s))
  {
    var s0 := s.(failures := []);
    NamedApply(f, cfg, s, d);
    PreImportResult(f, cfg, s0, d);
    var pre := PreImport(f, cfg, s0, d);
    if pre.out.Fine? {
      var x := RunOf(pre.s, d);
      RunStartsGood(s0, pre.s, d);
      TasksInRun(x, d);
      RunTasksKeepsGood(x, f, pre.s, Tasks(d));
    }
  }

  /**
  Force-bind safety: from a snapshot of the controller and a guarded difference, whatever requests
  fail and however, every forced bind takes the card from a user who is not active at that moment;
  and no card is offered to two users.
  */
  lemma NoActiveUserLosesACard(f: Faults, cfg: Config, s: Session, members: seq<ResolvedMember>,
                               users: seq<UnifiUser>, d: Diff)
    requires WellFormed(s.ctl) && Agrees(s.cache, s.ctl) && ReadsOnly(s.log)
    requires IsDiff(members, users, d)
    requires CardsInRange(d) && DistinctCards(d) && NamesOk(d) && cfg.facility < Codec.FACILITY_CODES
    ensures AllHarmless(Apply(f, cfg, s, d).s.log)
    ensures OneUserPerCard(Apply(f, cfg, s, d).s.log)
  {
    DiffWritesOnce(members, users, d);
    ApplyStaysGood(f, cfg, s, d);
    var pre := PreImport(f, cfg, s.(failures := []), d);
    if pre.out.Fine? {
      EntitledBindsAgree(RunOf(pre.s, d), Apply(f, cfg, s, d).s);
    }
  }

  /**
  Reactivation fails closed: an account is switched on only when its user holds its member's card and
  no other, and its policy is exactly the member's.
  */
  lemma OnlyReadyAccountsAreSwitchedOn(f: Faults, cfg: Config, s: Session, members: seq<ResolvedMember>,
                                       users: seq<UnifiUser>, d: Diff)
    requires WellFormed(s.ctl) && Agrees(s.cache, s.ctl) && ReadsOnly(s.log)
    requires IsDiff(members, users, d)
    requires CardsInRange(d) && DistinctCards(d) && NamesOk(d) && cfg.facility < Codec.FACILITY_CODES
    ensures var s' := Apply(f, cfg, s, d).s;
            var x := RunOf(PreImport(f, cfg, s.(failures := []), d).s, d);
            ActivationsReady(x, s'.cache.userIds, s'.log)
  {
    DiffWritesOnce(members, users, d);
    ApplyStaysGood(f, cfg, s, d);
  }

  lemma EntitledBindsAgree(x: Run, s: Session)
    requires OneWanter(x) && BindsEntitled(x, s.cache.userIds, s.log)
    ensures OneUserPerCard(s.log)
  {
    var log := s.log;
    forall i, j | 0 <= i < j < |log| && SameCard(log[i].request, log[j].request)
      ensures log[i].request.user == log[j].request.user
    {
      EntitledIsUnique(x, s.cache.userIds, log[i].request.user, log[j].request.user, log[i].request.token);
    }
  }
}
