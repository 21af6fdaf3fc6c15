/**
Isolation between contacts: the entry of one contact leaves every other contact's account alone,
and a run can be cut before or after any entry.
*/
module Frame {
  import opened Models
  import opened Controller
  import opened Protocol
  import opened Effects
  import opened ForceBind

  /** The account of contact `k` went through unharmed: its record, its cards, its log and its failures. */
  ghost predicate Leaves(x: Run, k: ContactId, s: Session, s': Session) {
    && (k in s.cache.userIds <==> k in s'.cache.userIds)
    && (k in s.cache.userIds ==> AccountKept(x, k, s.cache.userIds[k], s, s'))
    && s.log <= s'.log
    && (EmailRefused(s'.log, x.cache0.userIds, k) <==> EmailRefused(s.log, x.cache0.userIds, k))
    && (k in s'.failures <==> k in s.failures)
    && s'.ctl.cards == s.ctl.cards
  }

  /** No new request concerns user `u`. */
  ghost predicate NoneAbout(log: seq<Event>, log': seq<Event>, u: UserId) {
    log <= log' && forall i :: |log| <= i < |log'| ==> !About(log'[i].request, u)
  }

  /** Same record; no card gained; none lost while active, and never a card the contact is to be given. */
  ghost predicate AccountKept(x: Run, k: ContactId, u: UserId, s: Session, s': Session) {
    && k in s'.cache.userIds && s'.cache.userIds[k] == u
    && u in s.ctl.users && u in s'.ctl.users && s'.ctl.users[u] == s.ctl.users[u]
    && NoneAbout(s.log, s'.log, u)
    && (forall t :: Holds(s'.ctl, u, t) ==> Holds(s.ctl, u, t))
    && (forall t :: Holds(s.ctl, u, t) && (s.ctl.users[u].status == ACTIVE || Wants(x, k, t)) ==> Holds(s'.ctl, u, t))
  }

  lemma LeavesTransitive(x: Run, k: ContactId, a: Session, b: Session, c: Session)
    requires Leaves(x, k, a, b) && Leaves(x, k, b, c)
    ensures Leaves(x, k, a, c)
  {
  }

  /** The token of the card an entry brings. */
  function TaskToken(cache: Cache, t: Task): Option<Token> {
    match t
    case Credential(p) => WantedToken(cache, p.member.card)
    case Add(r) => WantedToken(cache, r.card)
    case _ => None
  }

  // ---- one entry ----

  /** An entry about a known user touches that user only. */
  lemma TaskTouches(f: Faults, s: Session, ids: map<ContactId, UserId>, t: Task)
    requires Named(t) && TaskContact(t) in s.cache.userIds && s.cache.userIds[TaskContact(t)] in s.ctl.users
    requires TaskContact(t) in ids && ids[TaskContact(t)] == s.cache.userIds[TaskContact(t)]
    ensures var s' := RunTask(f, s, t);
      && Touches(s, s'.(failures := s.failures), s.cache.userIds[TaskContact(t)], TaskToken(s.cache, t))
      && (s'.failures == s.failures || s'.failures == s.failures + [TaskContact(t)])
  {
    var k := TaskContact(t);
    var u := s.cache.userIds[k];
    match t
    case Deactivate(_) => DeactivateEffect(f, s, k, u);
    case Credential(p) => UpdateCredentialEffect(f, s, ids, p);
    case Policy(p) => AssignEffect(f, s, u, p.member.policy);
    case Add(r) => ReactivateEffect(f, s, ids, r);
  }

  /** A card that changes hands was neither held by an active user nor to be given to its holder. */
  lemma TakenCards(x: Run, s: Session, k: ContactId, j: ContactId, u: UserId, t: Token)
    requires RunOk(x) && Good(x, s) && k in s.cache.userIds && s.cache.userIds[k] != u
    requires j != k && Wants(x, j, t) && j in s.cache.userIds && s.cache.userIds[j] == u
    requires Holds(s.ctl, s.cache.userIds[k], t) && Reclaimable(s.cache, t, u)
    ensures s.ctl.users[s.cache.userIds[k]].status != ACTIVE && !Wants(x, k, t)
  {
    ReclaimIsHarmless(x, s.ctl, s.cache, u, t);
    if Wants(x, k, t) {
      WanterIsUnique(x, k, j, t);
    }
  }

  lemma TokenIsWanted(x: Run, s: Session, t: Task, a: Token)
    requires RunOk(x) && Good(x, s) && TaskInRun(x, t) && TaskToken(s.cache, t) == Some(a)
    ensures Wants(x, TaskContact(t), a)
  {
  }

  lemma KnownTaskLeaves(x: Run, f: Faults, s: Session, t: Task, k: ContactId)
    requires RunOk(x) && Good(x, s) && Named(t) && TaskInRun(x, t) && TaskContact(t) != k
    requires TaskContact(t) in s.cache.userIds
    ensures Leaves(x, k, s, RunTask(f, s, t))
  {
    var j := TaskContact(t);
    var u := s.cache.userIds[j];
    var s' := RunTask(f, s, t);
    TaskTouches(f, s, s.cache.userIds, t);
    assert NoEmailWrites(s.log, s'.log, x.cache0.userIds, k) by {
      OnlyThatUser(x, s.log, s'.log, s.cache.userIds, j, k);
    }
    RefusalStays(s.log, s'.log, x.cache0.userIds, k);
    if k in s.cache.userIds {
      var v := s.cache.userIds[k];
      forall a | Holds(s.ctl, v, a) && (s.ctl.users[v].status == ACTIVE || Wants(x, k, a)) ensures Holds(s'.ctl, v, a) {
        if !Holds(s'.ctl, v, a) {
          TokenIsWanted(x, s, t, a);
          TakenCards(x, s, k, j, u, a);
        }
      }
    }
  }

  /** Requests about the user of one contact write no email of another. */
  lemma OnlyThatUser(x: Run, log: seq<Event>, log': seq<Event>, ids: map<ContactId, UserId>, j: ContactId, k: ContactId)
    requires j in ids && OnlyAbout(log, log', ids[j]) && j != k
    requires forall i :: i in x.cache0.userIds ==> i in ids && ids[i] == x.cache0.userIds[i]
    requires forall a, b :: a in ids && b in ids && ids[a] == ids[b] ==> a == b
    ensures NoEmailWrites(log, log', x.cache0.userIds, k)
  {
  }

  // ---- a created account ----

  /** The write that starts a create adds at most one user, who holds nothing. */
  lemma CreateWriteLeaves(x: Run, f: Faults, s: Session, r: ResolvedMember, k: ContactId)
    requires Good(x, s) && r.name != "" && r.contact != k
    ensures Leaves(x, k, s, WriteUser(f, s, None, CreationFields(r)).0)
  {
    var s1 := WriteUser(f, s, None, CreationFields(r)).0;
    CreateWriteEffect(f, s, x.cache0.userIds, r.contact, CreationFields(r));
    RefusalStays(s.log, s1.log, x.cache0.userIds, k);
  }

  /** What a new account is given was not another contact's to keep. */
  lemma EquipTakesNothingOf(x: Run, f: Faults, s: Session, r: ResolvedMember, u: UserId, k: ContactId, a: Token)
    requires RunOk(x) && Good(x, s) && r in x.writers && r.contact != k && k in s.cache.userIds
    requires r.contact in s.cache.userIds && s.cache.userIds[r.contact] == u
    requires var v := s.cache.userIds[k]; Holds(s.ctl, v, a) && (s.ctl.users[v].status == ACTIVE || Wants(x, k, a))
    ensures Holds(Equip(f, s, r, u).s.ctl, s.cache.userIds[k], a)
  {
    EquipEffect(f, s, r, u);
    if !Holds(Equip(f, s, r, u).s.ctl, s.cache.userIds[k], a) {
      TokenIsWanted(x, s, Add(r), a);
      TakenCards(x, s, k, r.contact, u, a);
    }
  }

  lemma EquipLeaves(x: Run, f: Faults, s: Session, r: ResolvedMember, u: UserId, k: ContactId)
    requires RunOk(x) && Good(x, s) && r in x.writers && r.contact != k
    requires r.contact in s.cache.userIds && s.cache.userIds[r.contact] == u
    ensures Leaves(x, k, s, Equip(f, s, r, u).s)
  {
    var s' := Equip(f, s, r, u).s;
    EquipEffect(f, s, r, u);
    OnlyThatUser(x, s.log, s'.log, s.cache.userIds, r.contact, k);
    RefusalStays(s.log, s'.log, x.cache0.userIds, k);
    if k in s.cache.userIds {
      var v := s.cache.userIds[k];
      forall a | Holds(s.ctl, v, a) && (s.ctl.users[v].status == ACTIVE || Wants(x, k, a)) ensures Holds(s'.ctl, v, a) {
        EquipTakesNothingOf(x, f, s, r, u, k, a);
      }
    }
  }

  /** A create is the write, then the equipment of the account it made. */
  lemma CreateUnfolds(f: Faults, s: Session, r: ResolvedMember)
    requires r.name != ""
    ensures var (s1, reply) := WriteUser(f, s, None, CreationFields(r)); var step := Create(f, s, r);
      && (reply.Created? ==> step == Equip(f, Registered(s1, r.contact, reply.user), r, reply.user))
      && (!reply.Created? ==> step.s == s1 && step.out.Raised?)
  {
  }

  /** The registered account of a create is again a good state. */
  lemma RegisteredIsGood(x: Run, f: Faults, s: Session, r: ResolvedMember)
    requires RunOk(x) && Good(x, s) && r in x.writers && r.name != "" && r.contact !in s.cache.userIds
    ensures var (s1, reply) := WriteUser(f, s, None, CreationFields(r));
      && Good(x, s1) && s1.cache == s.cache
      && (reply.Created? ==> Good(x, Registered(s1, r.contact, reply.user)) && FreshUser(x, s1, reply.user))
  {
    WriteUserKeepsGood(x, f, s, None, CreationFields(r));
    var (s1, reply) := WriteUser(f, s, None, CreationFields(r));
    if reply.Created? {
      RegisterKeepsGood(x, s1, r.contact, reply.user);
    }
  }

  /** Registering a new account concerns no other contact. */
  lemma RegisterLeaves(x: Run, s: Session, k: ContactId, j: ContactId, u: UserId)
    requires Good(x, s) && j != k
    ensures Leaves(x, k, s, Registered(s, j, u))
  {
  }

  lemma CreateLeaves(x: Run, f: Faults, s: Session, r: ResolvedMember, k: ContactId)
    requires RunOk(x) && Good(x, s) && r in x.writers && r.name != "" && r.contact !in s.cache.userIds && r.contact != k
    ensures Leaves(x, k, s, RunTask(f, s, Add(r)))
  {
    var (s1, reply) := WriteUser(f, s, None, CreationFields(r));
    CreateUnfolds(f, s, r);
    CreateWriteLeaves(x, f, s, r, k);
    RegisteredIsGood(x, f, s, r);
    if reply.Created? {
      var s2 := Registered(s1, r.contact, reply.user);
      RegisterLeaves(x, s1, k, r.contact, reply.user);
      EquipLeaves(x, f, s2, r, reply.user, k);
      LeavesTransitive(x, k, s, s1, s2);
      LeavesTransitive(x, k, s, s2, Equip(f, s2, r, reply.user).s);
    }
  }

  lemma TaskLeaves(x: Run, f: Faults, s: Session, t: Task, k: ContactId)
    requires RunOk(x) && Good(x, s) && Named(t) && TaskInRun(x, t) && TaskContact(t) != k
    ensures Leaves(x, k, s, RunTask(f, s, t))
  {
    if TaskContact(t) in s.cache.userIds {
      KnownTaskLeaves(x, f, s, t, k);
    } else if t.Add? {
      CreateLeaves(x, f, s, t.member, k);
    }
  }

  // ---- many entries ----

  ghost predicate InRun(x: Run, ts: seq<Task>) {
    AllNamed(ts) && forall i :: 0 <= i < |ts| ==> TaskInRun(x, ts[i])
  }

  /** None of the entries is about contact `k`. */
  ghost predicate Spares(ts: seq<Task>, k: ContactId) {
    forall i :: 0 <= i < |ts| ==> TaskContact(ts[i]) != k
  }

  /** However the other entries fare, a contact without an entry among them keeps its account. */
  lemma {:induction false} TasksLeave(x: Run, f: Faults, s: Session, ts: seq<Task>, k: ContactId)
    requires RunOk(x) && Good(x, s) && InRun(x, ts) && Spares(ts, k)
    ensures Leaves(x, k, s, RunTasks(f, s, ts))
  {
    if ts == [] {
      if k in s.cache.userIds {
        assert AccountKept(x, k, s.cache.userIds[k], s, s);
      }
    } else {
      var front := ts[..|ts| - 1];
      TasksLeave(x, f, s, front, k);
      RunTasksKeepsGood(x, f, s, front);
      var s1 := RunTasks(f, s, front);
      TaskLeaves(x, f, s1, ts[|ts| - 1], k);
      LeavesTransitive(x, k, s, s1, RunTasks(f, s, ts));
    }
  }

  /** A run can be cut anywhere. */
  lemma {:induction false} RunTasksSplit(f: Faults, s: Session, a: seq<Task>, b: seq<Task>)
    requires AllNamed(a) && AllNamed(b) && AllNamed(a + b)
    ensures RunTasks(f, s, a + b) == RunTasks(f, RunTasks(f, s, a), b)
  {
    if b == [] {
      assert a + b == a;
    } else {
      assert (a + b)[..|a + b| - 1] == a + b[..|b| - 1];
      RunTasksSplit(f, s, a, b[..|b| - 1]);
    }
  }
}
