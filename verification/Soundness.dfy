/**
What a run keeps for the next cycle, whatever requests fail: at most one card per user, and one user per
contact unless a create was carried out twice.
*/
module Soundness {
  import opened Models
  import opened Controller
  import opened Protocol
  import opened Snapshot
  import opened CardIndex
  import opened Effects
  import opened ForceBind
  import opened Frame
  import opened Cycle
  import opened Isolation

  // ---- one user per contact ----

  /** Known users carry their contact; an unknown managed user belongs to an addition already tried. */
  ghost predicate Numbered(s: Session, tried: set<ContactId>) {
    && (forall k :: k in s.cache.userIds ==>
          s.cache.userIds[k] in s.ctl.users && s.ctl.users[s.cache.userIds[k]].employee == Some(k))
    && (forall u :: u in s.ctl.users && Managed(s.ctl.users[u].employee) ==>
          s.ctl.users[u].employee.value in tried || IsKnownAs(s, u, s.ctl.users[u].employee.value))
  }

  predicate IsKnownAs(s: Session, u: UserId, k: ContactId) {
    k in s.cache.userIds && s.cache.userIds[k] == u
  }

  lemma KnownTaskKeepsNumbers(x: Run, f: Faults, s: Session, t: Task, tried: set<ContactId>)
    requires RunOk(x) && Good(x, s) && Named(t) && TaskInRun(x, t) && Numbered(s, tried)
    requires TaskContact(t) in s.cache.userIds
    ensures Numbered(RunTask(f, s, t), tried)
  {
    var k := TaskContact(t);
    var u := s.cache.userIds[k];
    TaskTouches(f, s, s.cache.userIds, t);
    KnownEmployee(f, s, t);
    SameNumbers(s, RunTask(f, s, t), tried);
  }

  lemma KnownEmployee(f: Faults, s: Session, t: Task)
    requires Named(t) && TaskContact(t) in s.cache.userIds
    requires var u := s.cache.userIds[TaskContact(t)];
      u in s.ctl.users && s.ctl.users[u].employee == Some(TaskContact(t))
    ensures var u := s.cache.userIds[TaskContact(t)]; var s' := RunTask(f, s, t);
      u in s'.ctl.users && s'.ctl.users[u].employee == Some(TaskContact(t))
  {
    var k := TaskContact(t);
    match t
    case Deactivate(_) => DeactivateEffect(f, s, k, s.cache.userIds[k]);
    case Credential(p) => UpdateCredentialEffect(f, s, s.cache.userIds, p);
    case Policy(p) => AssignEffect(f, s, s.cache.userIds[k], p.member.policy);
    case Add(r) => ReactivateEffect(f, s, s.cache.userIds, r);
  }

  lemma EquipKeepsNumbers(f: Faults, s: Session, r: ResolvedMember, u: UserId, tried: set<ContactId>)
    requires Numbered(s, tried) && r.contact in tried && u in s.ctl.users && s.ctl.users[u].employee == Some(r.contact)
    ensures Numbered(Equip(f, Registered(s, r.contact, u), r, u).s, tried)
  {
    RegisterNumber(s, r.contact, u, tried);
    EquipEffect(f, Registered(s, r.contact, u), r, u);
    SameNumbers(Registered(s, r.contact, u), Equip(f, Registered(s, r.contact, u), r, u).s, tried);
  }

  lemma WriteKeepsNumbers(x: Run, f: Faults, s: Session, r: ResolvedMember, tried: set<ContactId>)
    requires Good(x, s) && r.name != "" && Numbered(s, tried)
    requires r.contact !in s.cache.userIds && r.contact !in tried
    ensures var (s1, reply) := WriteUser(f, s, None, CreationFields(r));
      && Numbered(s1, tried + {r.contact})
      && (reply.Created? ==> reply.user in s1.ctl.users && s1.ctl.users[reply.user].employee == Some(r.contact))
  {
    CreateWriteEffect(f, s, x.cache0.userIds, r.contact, CreationFields(r));
    NewNumber(s, WriteUser(f, s, None, CreationFields(r)).0, r.contact, tried);
  }

  lemma CreateKeepsNumbers(x: Run, f: Faults, s: Session, r: ResolvedMember, tried: set<ContactId>)
    requires Good(x, s) && r.name != "" && Numbered(s, tried)
    requires r.contact !in s.cache.userIds && r.contact !in tried
    ensures Numbered(RunTask(f, s, Add(r)), tried + {r.contact})
  {
    CreateUnfolds(f, s, r);
    WriteKeepsNumbers(x, f, s, r, tried);
    var (s1, reply) := WriteUser(f, s, None, CreationFields(r));
    if reply.Created? {
      EquipKeepsNumbers(f, s1, r, reply.user, tried + {r.contact});
    }
  }

  lemma RegisterNumber(s: Session, k: ContactId, u: UserId, tried: set<ContactId>)
    requires Numbered(s, tried) && k in tried && u in s.ctl.users && s.ctl.users[u].employee == Some(k)
    ensures Numbered(Registered(s, k, u), tried)
  {
  }

  lemma SameNumbers(s: Session, s': Session, tried: set<ContactId>)
    requires Numbered(s, tried) && s'.cache.userIds == s.cache.userIds && s'.ctl.users.Keys == s.ctl.users.Keys
    requires forall v :: v in s.ctl.users ==> s'.ctl.users[v].employee == s.ctl.users[v].employee
    ensures Numbered(s', tried)
  {
  }

  lemma NewNumber(s: Session, s1: Session, k: ContactId, tried: set<ContactId>)
    requires Numbered(s, tried) && k !in s.cache.userIds && k !in tried && WellFormed(s.ctl)
    requires s1.cache == s.cache
    requires Opened(s.ctl, s1.ctl, k)
    ensures Numbered(s1, tried + {k})
  {
  }

  // ---- at most one card per user ----

  lemma GainKeepsOneCard(s: Session, s': Session, u: UserId)
    requires OneCardEach(s.ctl)
    requires forall v, t :: v != u && Holds(s'.ctl, v, t) ==> Holds(s.ctl, v, t)
    requires GainsNothing(s, s', u) || forall t, t' :: Holds(s'.ctl, u, t) && Holds(s'.ctl, u, t') ==> t == t'
    ensures OneCardEach(s'.ctl)
  {
    var c, c' := s.ctl, s'.ctl;
    forall t, t' | t in c'.bound && t' in c'.bound && c'.bound[t] == c'.bound[t'] ensures t == t' {
      var v := c'.bound[t];
      assert Holds(c', v, t) && Holds(c', v, t');
    }
  }

  lemma SweptToIsWanted(x: Run, s: Session, s': Session, r: ResolvedMember, u: UserId)
    requires RunOk(x) && Good(x, s) && r in x.writers
    requires r.contact in s.cache.userIds && s.cache.userIds[r.contact] == u
    requires SweptTo(s, s', r.contact, u, WantedToken(s.cache, r.card))
    ensures forall t: Token :: Holds(s'.ctl, u, t) ==> WantedToken(s.cache, r.card) == Some(t)
  {
  }

  lemma KnownTaskKeepsOneCard(x: Run, f: Faults, s: Session, t: Task)
    requires RunOk(x) && Good(x, s) && Named(t) && TaskInRun(x, t) && OneCardEach(s.ctl)
    requires TaskContact(t) in s.cache.userIds
    ensures OneCardEach(RunTask(f, s, t).ctl)
  {
    var k := TaskContact(t);
    var u := s.cache.userIds[k];
    var s' := RunTask(f, s, t);
    TaskTouches(f, s, s.cache.userIds, t);
    match t {
      case Deactivate(_) => DeactivateEffect(f, s, k, u);
      case Credential(p) =>
        UpdateCredentialEffect(f, s, s.cache.userIds, p);
        if !GainsNothing(s, s', u) {
          SweptToIsWanted(x, s, s', p.member, u);
        }
      case Policy(p) => AssignEffect(f, s, u, p.member.policy);
      case Add(r) =>
        ReactivateEffect(f, s, s.cache.userIds, r);
        if !GainsNothing(s, s', u) {
          SweptToIsWanted(x, s, s', r, u);
        }
    }
    GainKeepsOneCard(s, s', u);
  }

  lemma EquipKeepsOneCard(f: Faults, s: Session, r: ResolvedMember, u: UserId)
    requires OneCardEach(s.ctl) && u in s.ctl.users && forall t :: !Holds(s.ctl, u, t)
    ensures OneCardEach(Equip(f, s, r, u).s.ctl)
  {
    EquipEffect(f, s, r, u);
    GainKeepsOneCard(s, Equip(f, s, r, u).s, u);
  }

  lemma CreateKeepsOneCard(x: Run, f: Faults, s: Session, r: ResolvedMember)
    requires RunOk(x) && Good(x, s) && r in x.writers && r.name != "" && OneCardEach(s.ctl)
    requires r.contact !in s.cache.userIds
    ensures OneCardEach(RunTask(f, s, Add(r)).ctl)
  {
    CreateUnfolds(f, s, r);
    WriteUserKeepsGood(x, f, s, None, CreationFields(r));
    var (s1, reply) := WriteUser(f, s, None, CreationFields(r));
    if reply.Created? {
      EquipKeepsOneCard(f, Registered(s1, r.contact, reply.user), r, reply.user);
    }
  }

  // ---- a whole run ----

  /** The contacts the entries add. */
  function AddedBy(ts: seq<Task>): set<ContactId> {
    set i | 0 <= i < |ts| && ts[i].Add? :: TaskContact(ts[i])
  }

  lemma TaskKeepsSound(x: Run, f: Faults, s: Session, t: Task, tried: set<ContactId>)
    requires RunOk(x) && Good(x, s) && Named(t) && TaskInRun(x, t) && Numbered(s, tried) && OneCardEach(s.ctl)
    requires t.Add? ==> TaskContact(t) !in tried
    ensures Numbered(RunTask(f, s, t), if t.Add? then tried + {TaskContact(t)} else tried)
    ensures OneCardEach(RunTask(f, s, t).ctl)
  {
    if TaskContact(t) in s.cache.userIds {
      KnownTaskKeepsNumbers(x, f, s, t, tried);
      KnownTaskKeepsOneCard(x, f, s, t);
      if t.Add? {
        MoreTried(RunTask(f, s, t), tried, TaskContact(t));
      }
    } else if t.Add? {
      CreateKeepsNumbers(x, f, s, t.member, tried);
      CreateKeepsOneCard(x, f, s, t.member);
    }
  }

  lemma MoreTried(s: Session, tried: set<ContactId>, k: ContactId)
    requires Numbered(s, tried)
    ensures Numbered(s, tried + {k})
  {
  }

  lemma {:induction false} RunKeepsSound(x: Run, f: Faults, s: Session, ts: seq<Task>, n: nat)
    requires Underway(x, s, ts) && n <= |ts| && OneEntryPerContact(ts)
    requires Numbered(s, {}) && OneCardEach(s.ctl)
    ensures var s' := At(f, s, ts, n); Numbered(s', AddedBy(ts[..n])) && OneCardEach(s'.ctl)
  {
    if n == 0 {
      assert AddedBy(ts[..0]) == {};
    } else {
      var m := n - 1;
      RunKeepsSound(x, f, s, ts, m);
      GoodAt(x, f, s, ts, m);
      AtNext(f, s, ts, m);
      AddedByOneMore(ts, m);
      TaskKeepsSound(x, f, At(f, s, ts, m), ts[m], AddedBy(ts[..m]));
    }
  }

  lemma AddedByOneMore(ts: seq<Task>, m: nat)
    requires m < |ts| && OneEntryPerContact(ts)
    ensures AddedBy(ts[..m + 1]) == if ts[m].Add? then AddedBy(ts[..m]) + {TaskContact(ts[m])} else AddedBy(ts[..m])
    ensures ts[m].Add? ==> TaskContact(ts[m]) !in AddedBy(ts[..m])
  {
  }

  lemma SoundIsNumbered(s0: Session, s: Session)
    requires Sound(s0.ctl) && Agrees(s0.cache, s0.ctl) && OnlyIndexed(s0, s)
    ensures Numbered(s, {}) && OneCardEach(s.ctl)
  {
  }

  lemma StartIsNumbered(y: Round, p: Session, s': Session)
    requires Ran(y, p, s')
    ensures Numbered(p, {}) && OneCardEach(p.ctl)
  {
    SoundIsNumbered(y.s.(failures := []), p);
  }

  /** How a run ends, whatever fails in it. */
  lemma RunEnds(y: Round, p: Session, s': Session)
    requires Ran(y, p, s')
    ensures Good(RunOf(p, y.d), s') && Numbered(s', AddedBy(Tasks(y.d))) && OneCardEach(s'.ctl)
  {
    var x, ts := RunOf(p, y.d), Tasks(y.d);
    StartIsNumbered(y, p, s');
    RunKeepsSound(x, y.f, p, ts, |ts|);
    GoodAt(x, y.f, p, ts, |ts|);
    assert ts[..|ts|] == ts;
  }

  /** Whatever requests fail, every user keeps at most one card. */
  lemma ApplyKeepsOneCard(y: Round)
    requires Started(y)
    ensures WellFormed(Applied(y).s.ctl) && OneCardEach(Applied(y).s.ctl)
  {
    StartedIsGood(y);
    if RunStart(y).out.Fine? {
      AppliedIsRun(y);
      RunEnds(y, RunStart(y).s, Applied(y).s);
    }
  }
}
