/**
Without request failures, an entry can only fail because its card is held by an account that is
not known to be disabled; when no card is blocked, a whole apply goes through.
*/
module Fluency {
  import opened Models
  import opened Controller
  import opened Protocol
  import opened CardIndex
  import opened Effects
  import opened ForceBind
  import opened CardProtocol
  import opened Frame
  import opened Isolation
  import opened Soundness

  // ---- single steps ----

  lemma WriteRecordWorks(f: Faults, s: Session, u: UserId, fields: Fields)
    requires NoFaults(f) && u in s.ctl.users
    ensures WriteRecord(f, s, u, fields).out.Fine?
  {
  }

  lemma CreateWriteWorks(f: Faults, s: Session, fields: Fields)
    requires NoFaults(f)
    ensures WriteUser(f, s, None, fields).1.Created? || fields.(email := None) == NOTHING
  {
  }

  /** A sweep over cards the user really holds goes through. */
  lemma {:induction false} SweepWorks(f: Faults, s: Session, u: UserId, tokens: seq<Token>, keep: Option<Token>)
    requires NoFaults(f) && NoDup(tokens) && forall t :: t in tokens ==> Holds(s.ctl, u, t)
    ensures Sweep(f, s, u, tokens, keep).out.Fine?
    decreases |tokens|
  {
    if tokens != [] {
      assert tokens[0] in tokens;
      assert forall t :: t in tokens[1..] ==> t in tokens && t != tokens[0];
      if Some(tokens[0]) == keep {
        SweepWorks(f, s, u, tokens[1..], keep);
      } else {
        var step := Call(f, s, DeleteCard(u, tokens[0]));
        assert forall t :: t in tokens[1..] ==> Holds(step.s.ctl, u, t);
        SweepWorks(f, step.s, u, tokens[1..], keep);
      }
    }
  }

  /** The card is free, already the user's, or held by an account the cache knows as disabled. */
  ghost predicate Bindable(s: Session, u: UserId, t: Token) {
    t in s.ctl.bound && s.ctl.bound[t] != u ==>
      t in s.cache.holders && s.cache.holders[t].user == s.ctl.bound[t] && IsDisabled(s.cache.holders[t].status)
  }

  lemma BindWorks(f: Faults, s: Session, u: UserId, t: Token)
    requires NoFaults(f) && u in s.ctl.users && t < s.ctl.nextToken && Bindable(s, u, t)
    ensures Bind(f, s, u, t).out.Fine?
  {
  }

  lemma AttachWorks(f: Faults, s: Session, u: UserId, card: Option<CardId>)
    requires NoFaults(f) && u in s.ctl.users
    requires card.Some? ==> WantedToken(s.cache, card).Some?
    requires card.Some? ==>
              WantedToken(s.cache, card).value < s.ctl.nextToken && Bindable(s, u, WantedToken(s.cache, card).value)
    ensures AttachCard(f, s, u, card).out.Fine?
  {
  }

  // ---- the invariant ----

  /** The member's card can be bound whenever its turn comes. */
  ghost predicate ClearFor(s: Session, w: ResolvedMember) {
    w.card.Some? ==>
      var wanted := WantedToken(s.cache, w.card);
      wanted.Some? && wanted.value < s.ctl.nextToken && BindableFor(s, w.contact, wanted.value)
  }

  ghost predicate BindableFor(s: Session, k: ContactId, t: Token) {
    t in s.ctl.bound && !IsKnownAs(s, s.ctl.bound[t], k) ==>
      t in s.cache.holders && s.cache.holders[t].user == s.ctl.bound[t] && IsDisabled(s.cache.holders[t].status)
  }

  ghost predicate AllClear(x: Run, s: Session) {
    forall w :: w in x.writers ==> ClearFor(s, w)
  }

  lemma DeactivatedIsDisabled()
    ensures IsDisabled(DEACTIVATED)
  {
  }

  /** An entry of contact `k` that brought its user the wanted card, or none, blocks nobody else. */
  lemma TouchKeepsClear(x: Run, s: Session, s': Session, k: ContactId, u: UserId, card: Option<Token>)
    requires RunOk(x) && Good(x, s) && AllClear(x, s) && IsKnownAs(s, u, k) && Touches(s, s', u, card)
    requires card.Some? ==> Wants(x, k, card.value) && Holds(s'.ctl, u, card.value)
    requires forall t: Token :: Holds(s'.ctl, u, t) ==> Holds(s.ctl, u, t) || card == Some(t)
    ensures AllClear(x, s')
  {
    DeactivatedIsDisabled();
    forall w | w in x.writers && w.card.Some? ensures ClearFor(s', w) {
      assert ClearFor(s, w);
      var t := WantedToken(s.cache, w.card).value;
      assert Wants(x, w.contact, t);
      if card == Some(t) {
        WanterIsUnique(x, k, w.contact, t);
      } else if t in s'.ctl.bound {
        assert Holds(s'.ctl, s'.ctl.bound[t], t);
        assert Holds(s.ctl, s'.ctl.bound[t], t);
      }
    }
  }

  lemma MemberWants(x: Run, s: Session, r: ResolvedMember)
    requires RunOk(x) && Good(x, s) && r in x.writers && WantedToken(s.cache, r.card).Some?
    ensures Wants(x, r.contact, WantedToken(s.cache, r.card).value)
  {
  }

  // ---- entries ----

  ghost predicate Flowing(x: Run, f: Faults, swept: set<ContactId>, s: Session) {
    Tidy(x, f, swept, s) && AllClear(x, s) && NoFaults(f)
  }

  /** The cached cards of a contact not swept yet are really held, so deleting them works. */
  lemma OwnSweepWorks(x: Run, f: Faults, swept: set<ContactId>, s: Session, k: ContactId, s1: Session,
                      keep: Option<Token>)
    requires Tidy(x, f, swept, s) && NoFaults(f) && k !in swept && k in s.cache.userIds
    requires s1.cache == s.cache && s1.ctl.bound == s.ctl.bound
    ensures Sweep(f, s1, s.cache.userIds[k], CachedCards(s1.cache, k), keep).out.Fine?
  {
    var u := s.cache.userIds[k];
    var tokens := CachedCards(s.cache, k);
    assert NeverLost(f);
    forall t | t in tokens ensures Holds(s1.ctl, u, t) {
      assert Holds(s.ctl, u, t);
    }
    SweepWorks(f, s1, u, tokens, keep);
  }

  lemma DeactivateWorks(x: Run, f: Faults, swept: set<ContactId>, s: Session, k: ContactId)
    requires RunOk(x) && Flowing(x, f, swept, s) && k in s.cache.userIds
    ensures DeactivateUser(f, s, k, s.cache.userIds[k]).out.Fine?
    ensures AllClear(x, DeactivateUser(f, s, k, s.cache.userIds[k]).s)
  {
    var u := s.cache.userIds[k];
    DeactivateEffect(f, s, k, u);
    SweepEffect(f, s, u, CachedCards(s.cache, k), None);
    TouchKeepsClear(x, s, DeactivateUser(f, s, k, u).s, k, u, None);
  }

  lemma PolicyWorks(x: Run, f: Faults, swept: set<ContactId>, s: Session, u: UserId, k: ContactId,
                    policy: Option<string>)
    requires RunOk(x) && Flowing(x, f, swept, s) && IsKnownAs(s, u, k)
    ensures AssignPolicy(f, s, u, policy).out.Fine? && AllClear(x, AssignPolicy(f, s, u, policy).s)
  {
  }

  /** Before the bind: the record is written and the old cards are gone. */
  lemma ClearAfterSweep(x: Run, s: Session, s1: Session, r: ResolvedMember, u: UserId)
    requires RunOk(x) && Good(x, s) && AllClear(x, s) && r in x.writers && IsKnownAs(s, u, r.contact)
    requires Touches(s, s1, u, WantedToken(s.cache, r.card)) && s1.cache == s.cache
    requires forall v, t :: Holds(s1.ctl, v, t) ==> Holds(s.ctl, v, t)
    ensures r.card.Some? ==>
              WantedToken(s1.cache, r.card).Some? && WantedToken(s1.cache, r.card).value < s1.ctl.nextToken
    ensures r.card.Some? ==> Bindable(s1, u, WantedToken(s1.cache, r.card).value)
  {
    assert ClearFor(s, r);
    if r.card.Some? {
      var t := WantedToken(s.cache, r.card).value;
      if t in s1.ctl.bound {
        assert Holds(s1.ctl, s1.ctl.bound[t], t);
        assert Holds(s.ctl, s1.ctl.bound[t], t);
      }
    }
  }

  lemma CredentialWorks(x: Run, f: Faults, swept: set<ContactId>, s: Session, p: Pair)
    requires RunOk(x) && Flowing(x, f, swept, s) && p.member in x.writers && p.member.name != ""
    requires p.member.contact in s.cache.userIds && p.member.contact !in swept
    ensures UpdateCredential(f, s, p, s.cache.userIds[p.member.contact]).out.Fine?
  {
    var k := p.member.contact;
    var u := s.cache.userIds[k];
    var fields := CredentialFields(p.member, p.user);
    WriteRecordWorks(f, s, u, fields);
    WriteRecordEffect(f, s, s.cache.userIds, k, fields);
    var s1 := WriteRecord(f, s, u, fields).s;
    if p.member.card != p.user.card {
      OwnSweepWorks(x, f, swept, s, k, s1, None);
      SweepEffect(f, s1, u, CachedCards(s1.cache, k), None);
      var s2 := Sweep(f, s1, u, CachedCards(s1.cache, k), None).s;
      TouchesTransitive(s, s1, s2, u, None);
      TouchesMore(s, s2, u, WantedToken(s.cache, p.member.card));
      ClearAfterSweep(x, s, s2, p.member, u);
      AttachWorks(f, s2, u, p.member.card);
    }
  }

  lemma CredentialKeepsClear(x: Run, f: Faults, swept: set<ContactId>, s: Session, p: Pair)
    requires RunOk(x) && Flowing(x, f, swept, s) && p.member in x.writers && p.member.name != ""
    requires p.member.contact in s.cache.userIds && p.member.contact !in swept
    ensures AllClear(x, UpdateCredential(f, s, p, s.cache.userIds[p.member.contact]).s)
  {
    var k := p.member.contact;
    var u := s.cache.userIds[k];
    var s' := UpdateCredential(f, s, p, u).s;
    CredentialWorks(x, f, swept, s, p);
    UpdateCredentialEffect(f, s, s.cache.userIds, p);
    if p.member.card == p.user.card {
      WriteRecordEffect(f, s, s.cache.userIds, k, CredentialFields(p.member, p.user));
      TouchKeepsClear(x, s, s', k, u, None);
    } else {
      if p.member.card.Some? {
        MemberWants(x, s, p.member);
      }
      TouchKeepsClear(x, s, s', k, u, WantedToken(s.cache, p.member.card));
    }
  }

  lemma SwitchOnWorks(f: Faults, s: Session, r: ResolvedMember, u: UserId)
    requires NoFaults(f) && u in s.ctl.users
    requires r.card.Some? ==> WantedToken(s.cache, r.card).Some? && WantedToken(s.cache, r.card).value < s.ctl.nextToken
    requires r.card.Some? ==> Bindable(s, u, WantedToken(s.cache, r.card).value)
    ensures SwitchOn(f, s, r, u).out.Fine?
  {
  }

  lemma ReactivateWorks(x: Run, f: Faults, swept: set<ContactId>, s: Session, r: ResolvedMember)
    requires RunOk(x) && Flowing(x, f, swept, s) && r in x.writers && r.name != ""
    requires r.contact in s.cache.userIds && r.contact !in swept
    ensures Reactivate(f, s, r, s.cache.userIds[r.contact]).out.Fine?
  {
    var k := r.contact;
    var u := s.cache.userIds[k];
    WriteRecordWorks(f, s, u, ReactivationFields(r));
    WriteRecordEffect(f, s, s.cache.userIds, k, ReactivationFields(r));
    var s1 := WriteRecord(f, s, u, ReactivationFields(r)).s;
    var wanted := WantedToken(s1.cache, r.card);
    OwnSweepWorks(x, f, swept, s, k, s1, wanted);
    SweepEffect(f, s1, u, CachedCards(s1.cache, k), wanted);
    var s2 := Sweep(f, s1, u, CachedCards(s1.cache, k), wanted).s;
    TouchesTransitive(s, s1, s2, u, None);
    TouchesMore(s, s2, u, wanted);
    ClearAfterSweep(x, s, s2, r, u);
    SwitchOnWorks(f, s2, r, u);
  }

  lemma ReactivateKeepsClear(x: Run, f: Faults, swept: set<ContactId>, s: Session, r: ResolvedMember)
    requires RunOk(x) && Flowing(x, f, swept, s) && r in x.writers && r.name != ""
    requires r.contact in s.cache.userIds && r.contact !in swept
    ensures AllClear(x, Reactivate(f, s, r, s.cache.userIds[r.contact]).s)
  {
    var u := s.cache.userIds[r.contact];
    ReactivateWorks(x, f, swept, s, r);
    ReactivateEffect(f, s, s.cache.userIds, r);
    if r.card.Some? {
      MemberWants(x, s, r);
    }
    TouchKeepsClear(x, s, Reactivate(f, s, r, u).s, r.contact, u, WantedToken(s.cache, r.card));
  }

  lemma EquipWorks(f: Faults, s: Session, r: ResolvedMember, u: UserId)
    requires NoFaults(f) && u in s.ctl.users
    requires r.card.Some? ==> WantedToken(s.cache, r.card).Some? && WantedToken(s.cache, r.card).value < s.ctl.nextToken
    requires r.card.Some? ==> Bindable(s, u, WantedToken(s.cache, r.card).value)
    ensures Equip(f, s, r, u).out.Fine?
  {
  }

  /** A new account, registered, blocks nobody. */
  lemma OpenedKeepsClear(x: Run, s: Session, s1: Session, k: ContactId, u: UserId)
    requires Good(x, s) && AllClear(x, s) && Opened(s.ctl, s1.ctl, k) && s1.cache == s.cache && k !in s.cache.userIds
    ensures AllClear(x, Registered(s1, k, u))
  {
    forall w | w in x.writers && w.card.Some? ensures ClearFor(Registered(s1, k, u), w) {
      assert ClearFor(s, w);
    }
  }

  lemma NewUserKeepsClear(x: Run, f: Faults, s: Session, r: ResolvedMember)
    requires RunOk(x) && Good(x, s) && NoFaults(f) && AllClear(x, s) && r in x.writers && r.name != ""
    requires r.contact !in s.cache.userIds
    ensures var (s1, reply) := WriteUser(f, s, None, CreationFields(r));
      reply.Created? && reply.user in s1.ctl.users && AllClear(x, Registered(s1, r.contact, reply.user))
  {
    CreateWriteWorks(f, s, CreationFields(r));
    CreateWriteEffect(f, s, x.cache0.userIds, r.contact, CreationFields(r));
    var (s1, reply) := WriteUser(f, s, None, CreationFields(r));
    OpenedKeepsClear(x, s, s1, r.contact, reply.user);
  }

  lemma CreateWorks(x: Run, f: Faults, s: Session, r: ResolvedMember)
    requires RunOk(x) && Good(x, s) && NoFaults(f) && AllClear(x, s) && r in x.writers && r.name != ""
    requires r.contact !in s.cache.userIds
    ensures Create(f, s, r).out.Fine? && AllClear(x, Create(f, s, r).s)
  {
    CreateUnfolds(f, s, r);
    NewUserKeepsClear(x, f, s, r);
    RegisteredIsGood(x, f, s, r);
    var (s1, reply) := WriteUser(f, s, None, CreationFields(r));
    var u := reply.user;
    var s2 := Registered(s1, r.contact, u);
    TouchesReflexive(s2, u, WantedToken(s2.cache, r.card));
    ClearAfterSweep(x, s2, s2, r, u);
    EquipWorks(f, s2, r, u);
    EquipEffect(f, s2, r, u);
    if r.card.Some? {
      MemberWants(x, s2, r);
    }
    TouchKeepsClear(x, s2, Equip(f, s2, r, u).s, r.contact, u, WantedToken(s2.cache, r.card));
  }

  lemma TouchesReflexive(s: Session, u: UserId, card: Option<Token>)
    ensures Touches(s, s, u, card)
  {
  }

  lemma KnownAddWorks(x: Run, f: Faults, swept: set<ContactId>, s: Session, r: ResolvedMember)
    requires RunOk(x) && Flowing(x, f, swept, s) && r in x.writers && r.name != ""
    requires r.contact in s.cache.userIds && r.contact !in swept
    ensures RunTask(f, s, Add(r)).failures == s.failures && AllClear(x, RunTask(f, s, Add(r)))
  {
    TaskTouches(f, s, s.cache.userIds, Add(r));
    ReactivateWorks(x, f, swept, s, r);
    ReactivateEffect(f, s, s.cache.userIds, r);
    ReactivateKeepsClear(x, f, swept, s, r);
  }

  lemma NewAddWorks(x: Run, f: Faults, swept: set<ContactId>, s: Session, r: ResolvedMember)
    requires RunOk(x) && Flowing(x, f, swept, s) && r in x.writers && r.name != ""
    requires r.contact !in s.cache.userIds
    ensures RunTask(f, s, Add(r)).failures == s.failures && AllClear(x, RunTask(f, s, Add(r)))
  {
    CreateWorks(x, f, s, r);
    CreateUnfolds(f, s, r);
    RegisteredIsGood(x, f, s, r);
    CreateWriteEffect(f, s, x.cache0.userIds, r.contact, CreationFields(r));
    var (s1, reply) := WriteUser(f, s, None, CreationFields(r));
    EquipEffect(f, Registered(s1, r.contact, reply.user), r, reply.user);
  }

  lemma CredentialTaskWorks(x: Run, f: Faults, swept: set<ContactId>, s: Session, p: Pair)
    requires RunOk(x) && Flowing(x, f, swept, s) && p.member in x.writers && p.member.name != ""
    requires p.member.contact in s.cache.userIds && p.member.contact !in swept
    ensures RunTask(f, s, Credential(p)).failures == s.failures && AllClear(x, RunTask(f, s, Credential(p)))
  {
    CredentialWorks(x, f, swept, s, p);
    UpdateCredentialEffect(f, s, s.cache.userIds, p);
    CredentialKeepsClear(x, f, swept, s, p);
  }

  /** Without faults, an entry whose card is not blocked goes through, and blocks nobody. */
  lemma TaskWorks(x: Run, f: Faults, swept: set<ContactId>, s: Session, t: Task)
    requires RunOk(x) && Flowing(x, f, swept, s) && Named(t) && TaskInRun(x, t)
    requires t.Policy? || TaskContact(t) !in swept
    ensures RunTask(f, s, t).failures == s.failures && AllClear(x, RunTask(f, s, t))
  {
    var k := TaskContact(t);
    if t.Add? {
      if k in s.cache.userIds {
        KnownAddWorks(x, f, swept, s, t.member);
      } else {
        NewAddWorks(x, f, swept, s, t.member);
      }
    } else if k in s.cache.userIds {
      var u := s.cache.userIds[k];
      match t {
        case Deactivate(_) =>
          DeactivateWorks(x, f, swept, s, k);
          DeactivateEffect(f, s, k, u);
        case Credential(p) => CredentialTaskWorks(x, f, swept, s, p);
        case Policy(p) =>
          PolicyWorks(x, f, swept, s, u, k, p.member.policy);
          AssignEffect(f, s, u, p.member.policy);
      }
    }
  }

  /** Once no card is blocked, every further entry goes through. */
  lemma {:induction false} RunWorks(x: Run, f: Faults, s: Session, ts: seq<Task>, m: nat, n: nat)
    requires Underway(x, s, ts) && SweepsDisjoint(ts) && Tidy(x, f, {}, s) && NoFaults(f)
    requires m <= n <= |ts| && AllClear(x, At(f, s, ts, m))
    ensures At(f, s, ts, n).failures == At(f, s, ts, m).failures && AllClear(x, At(f, s, ts, n))
  {
    if m < n {
      RunWorks(x, f, s, ts, m, n - 1);
      EntryWorks(x, f, s, ts, n - 1);
    }
  }

  lemma EntryWorks(x: Run, f: Faults, s: Session, ts: seq<Task>, n: nat)
    requires Underway(x, s, ts) && SweepsDisjoint(ts) && Tidy(x, f, {}, s) && NoFaults(f)
    requires n < |ts| && AllClear(x, At(f, s, ts, n))
    ensures At(f, s, ts, n + 1).failures == At(f, s, ts, n).failures && AllClear(x, At(f, s, ts, n + 1))
  {
    TidyAt(x, f, s, ts, n);
    if !ts[n].Policy? {
      NotSweptYet(ts, n);
    }
    AtNext(f, s, ts, n);
    TaskWorks(x, f, SweptBy(ts[..n]), At(f, s, ts, n), ts[n]);
  }

  lemma TidyAt(x: Run, f: Faults, s: Session, ts: seq<Task>, n: nat)
    requires Underway(x, s, ts) && SweepsDisjoint(ts) && Tidy(x, f, {}, s) && n <= |ts|
    ensures Tidy(x, f, SweptBy(ts[..n]), At(f, s, ts, n))
  {
    RunTasksKeepsTidy(x, f, s, ts[..n]);
  }

  lemma NotSweptYet(ts: seq<Task>, n: nat)
    requires n < |ts| && SweepsDisjoint(ts) && !ts[n].Policy?
    ensures TaskContact(ts[n]) !in SweptBy(ts[..n])
  {
  }

  // ---- cards left behind ----

  /** Freeing a card may fail; the account is then cached as disabled for every card it still holds. */
  lemma LeftoverIsDisabled(f: Faults, s: Session, k: ContactId, u: UserId)
    requires DeactivateUser(f, s, k, u).out.Fine?
    ensures var cache := DeactivateUser(f, s, k, u).s.cache;
      forall t :: t in CachedCards(s.cache, k) && t in cache.holders && cache.holders[t].user == u ==>
        IsDisabled(cache.holders[t].status)
  {
    var swept := Sweep(f, s, u, CachedCards(s.cache, k), None).s;
    SweepEffect(f, s, u, CachedCards(s.cache, k), None);
    assert Call(f, swept, SetStatus(u, DEACTIVATED)).s.cache == s.cache;
    DeactivatedIsDisabled();
  }

  /** A card a departed member could not be freed of is taken over by the next bind that asks for it. */
  lemma LeftoverIsReclaimed(f: Faults, g: Faults, s: Session, k: ContactId, u: UserId, v: UserId, t: Token)
    requires NoFaults(g) && DeactivateUser(f, s, k, u).out.Fine?
    requires t in CachedCards(s.cache, k) && t in s.cache.holders && s.cache.holders[t].user == u
    requires var s' := DeactivateUser(f, s, k, u).s; Holds(s'.ctl, u, t) && v in s'.ctl.users && t < s'.ctl.nextToken
    ensures var r := Bind(g, DeactivateUser(f, s, k, u).s, v, t); r.out.Fine? && Holds(r.s.ctl, v, t)
  {
    var s' := DeactivateUser(f, s, k, u).s;
    DeactivateEffect(f, s, k, u);
    LeftoverIsDisabled(f, s, k, u);
    BindWorks(g, s', v, t);
    BindEffect(g, s', v, t);
  }
}
