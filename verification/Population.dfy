/**
How many members are switched on: the guards of one cycle bound what any run can take away or add,
whatever requests fail, and the bounds compound over cycles.
*/
module Population {
  import opened Models
  import opened Controller
  import opened Protocol
  import opened Safety
  import opened Reconciler
  import opened Snapshot
  import opened Effects
  import opened ForceBind
  import opened Frame
  import opened Cycle
  import opened Isolation
  import opened Soundness
  import opened Accounts
  import opened Refinement

  predicate SwitchedOnUser(c: State, u: UserId) {
    u in c.users && Managed(c.users[u].employee) && c.users[u].status == ACTIVE
  }

  /** The contacts with an account that is switched on. */
  function ActiveMembers(c: State): set<ContactId> {
    set u | u in c.users && SwitchedOnUser(c, u) :: c.users[u].employee.value
  }

  // ---- one entry ----

  /** An entry switches at most its own contact: a deactivation off, an addition on, the others none. */
  ghost predicate SwitchesOne(t: Task, before: set<ContactId>, after: set<ContactId>) {
    match t
    case Deactivate(_) => before - {TaskContact(t)} <= after <= before
    case Add(_) => before <= after <= before + {TaskContact(t)}
    case _ => after == before
  }

  /** One account changes, and stays its contact's. */
  ghost predicate OneAccount(c: State, c': State, u: UserId, k: ContactId) {
    && u in c.users && c'.users.Keys == c.users.Keys
    && c.users[u].employee == Some(k) && c'.users[u].employee == Some(k)
    && forall v :: v in c.users && v != u ==> c'.users[v] == c.users[v]
  }

  lemma OneAccountSwitches(c: State, c': State, u: UserId, k: ContactId)
    requires OneAccount(c, c', u, k)
    ensures ActiveMembers(c) - {k} <= ActiveMembers(c')
    ensures ActiveMembers(c') <= ActiveMembers(c) + {k}
    ensures (c.users[u].status == ACTIVE ==> c'.users[u].status == ACTIVE) ==> ActiveMembers(c) <= ActiveMembers(c')
    ensures (c'.users[u].status == ACTIVE ==> c.users[u].status == ACTIVE) ==> ActiveMembers(c') <= ActiveMembers(c)
  {
    forall v | v in c.users && SwitchedOnUser(c, v) && v != u ensures c.users[v].employee.value in ActiveMembers(c') {
      assert SwitchedOnUser(c', v);
    }
    forall v | v in c'.users && SwitchedOnUser(c', v) && v != u ensures c'.users[v].employee.value in ActiveMembers(c) {
      assert SwitchedOnUser(c, v);
    }
    assert SwitchedOnUser(c, u) ==> c.users[u].employee.value in ActiveMembers(c);
    assert SwitchedOnUser(c', u) ==> c'.users[u].employee.value in ActiveMembers(c');
  }

  lemma KnownTaskSwitches(f: Faults, s: Session, t: Task)
    requires Named(t) && TaskContact(t) in s.cache.userIds
    requires var u := s.cache.userIds[TaskContact(t)];
      u in s.ctl.users && s.ctl.users[u].employee == Some(TaskContact(t))
    ensures SwitchesOne(t, ActiveMembers(s.ctl), ActiveMembers(RunTask(f, s, t).ctl))
  {
    var k := TaskContact(t);
    var u := s.cache.userIds[k];
    TaskTouches(f, s, s.cache.userIds, t);
    KnownEmployee(f, s, t);
    OneAccountSwitches(s.ctl, RunTask(f, s, t).ctl, u, k);
    match t {
      case Deactivate(_) =>
        DeactivateEffect(f, s, k, u);
        StatusesDiffer();
      case Credential(p) => UpdateCredentialEffect(f, s, s.cache.userIds, p);
      case Policy(p) => AssignEffect(f, s, u, p.member.policy);
      case Add(r) => ReactivateEffect(f, s, s.cache.userIds, r);
    }
  }

  /** Equipping a new account switches nothing. */
  lemma EquipSwitchesNone(f: Faults, s: Session, r: ResolvedMember, u: UserId)
    requires u in s.ctl.users && s.ctl.users[u].employee == Some(r.contact)
    ensures ActiveMembers(Equip(f, s, r, u).s.ctl) == ActiveMembers(s.ctl)
  {
    EquipEffect(f, s, r, u);
    OneAccountSwitches(s.ctl, Equip(f, s, r, u).s.ctl, u, r.contact);
  }

  /** New accounts switch on their contact and nobody else. */
  lemma OpenedSwitchesOn(c: State, c': State, k: ContactId)
    requires Opened(c, c', k) && WellFormed(c)
    ensures ActiveMembers(c) <= ActiveMembers(c') <= ActiveMembers(c) + {k}
    ensures c'.nextUser > c.nextUser && k > 0 ==> k in ActiveMembers(c')
  {
    forall v | v in c.users && SwitchedOnUser(c, v) ensures c.users[v].employee.value in ActiveMembers(c') {
      assert SwitchedOnUser(c', v);
    }
    forall v | v in c'.users && SwitchedOnUser(c', v) ensures c'.users[v].employee.value in ActiveMembers(c) + {k} {
      assert v in c.users ==> SwitchedOnUser(c, v);
    }
    if c'.nextUser > c.nextUser && k > 0 {
      assert c.nextUser in c'.users && SwitchedOnUser(c', c.nextUser);
    }
  }

  lemma WriteSwitchesOne(f: Faults, s: Session, ids: map<ContactId, UserId>, r: ResolvedMember)
    requires r.name != "" && WellFormed(s.ctl)
    ensures var (s1, reply) := WriteUser(f, s, None, CreationFields(r));
      var before, after := ActiveMembers(s.ctl), ActiveMembers(s1.ctl);
      && before <= after <= before + {r.contact}
      && (reply.Created? ==> reply.user in s1.ctl.users && s1.ctl.users[reply.user].employee == Some(r.contact))
      && (reply.Created? && r.contact > 0 ==> r.contact in after)
  {
    CreateWriteEffect(f, s, ids, r.contact, CreationFields(r));
    OpenedSwitchesOn(s.ctl, WriteUser(f, s, None, CreationFields(r)).0.ctl, r.contact);
  }

  lemma CreateSwitches(x: Run, f: Faults, s: Session, r: ResolvedMember)
    requires Good(x, s) && r.name != "" && r.contact !in s.cache.userIds
    ensures SwitchesOne(Add(r), ActiveMembers(s.ctl), ActiveMembers(RunTask(f, s, Add(r)).ctl))
    ensures RunTask(f, s, Add(r)).failures == s.failures && r.contact > 0 ==>
              r.contact in ActiveMembers(RunTask(f, s, Add(r)).ctl)
  {
    CreateUnfolds(f, s, r);
    WriteSwitchesOne(f, s, x.cache0.userIds, r);
    var (s1, reply) := WriteUser(f, s, None, CreationFields(r));
    if reply.Created? {
      EquipSwitchesNone(f, Registered(s1, r.contact, reply.user), r, reply.user);
    }
  }

  lemma TaskSwitches(x: Run, f: Faults, s: Session, t: Task, tried: set<ContactId>)
    requires RunOk(x) && Good(x, s) && Named(t) && TaskInRun(x, t) && Numbered(s, tried)
    ensures SwitchesOne(t, ActiveMembers(s.ctl), ActiveMembers(RunTask(f, s, t).ctl))
  {
    if TaskContact(t) in s.cache.userIds {
      KnownTaskSwitches(f, s, t);
    } else if t.Add? {
      CreateSwitches(x, f, s, t.member);
    }
  }

  lemma OneFewer(a: set<ContactId>, b: set<ContactId>, k: ContactId)
    requires a - {k} <= b
    ensures |b| >= |a| - 1
  {
    Subset(a - {k}, b);
    if k in a {
      assert a == (a - {k}) + {k};
    } else {
      assert a - {k} == a;
    }
  }

  lemma Subset(a: set<ContactId>, b: set<ContactId>)
    requires a <= b
    ensures |a| <= |b|
  {
    assert b == a + (b - a);
  }

  lemma SwitchCount(t: Task, before: set<ContactId>, after: set<ContactId>)
    requires SwitchesOne(t, before, after)
    ensures |after| >= |before| - (if t.Deactivate? then 1 else 0)
    ensures |after| <= |before| + (if t.Add? then 1 else 0)
  {
    match t {
      case Deactivate(_) =>
        Subset(after, before);
        OneFewer(before, after, TaskContact(t));
      case Add(_) =>
        Subset(before, after);
        OneFewer(after, before, TaskContact(t));
      case _ =>
    }
  }

  // ---- one run ----

  function CountOff(ts: seq<Task>): nat {
    if ts == [] then 0 else CountOff(ts[..|ts| - 1]) + if ts[|ts| - 1].Deactivate? then 1 else 0
  }

  function CountOn(ts: seq<Task>): nat {
    if ts == [] then 0 else CountOn(ts[..|ts| - 1]) + if ts[|ts| - 1].Add? then 1 else 0
  }

  lemma {:induction false} CountConcat(a: seq<Task>, b: seq<Task>)
    ensures CountOff(a + b) == CountOff(a) + CountOff(b) && CountOn(a + b) == CountOn(a) + CountOn(b)
  {
    if b == [] {
      assert a + b == a;
    } else {
      assert (a + b)[..|a + b| - 1] == a + b[..|b| - 1];
      CountConcat(a, b[..|b| - 1]);
    }
  }

  lemma {:induction false} CountAlike(ts: seq<Task>)
    ensures (forall i :: 0 <= i < |ts| ==> ts[i].Deactivate?) ==> CountOff(ts) == |ts|
    ensures (forall i :: 0 <= i < |ts| ==> !ts[i].Deactivate?) ==> CountOff(ts) == 0
    ensures (forall i :: 0 <= i < |ts| ==> ts[i].Add?) ==> CountOn(ts) == |ts|
    ensures (forall i :: 0 <= i < |ts| ==> !ts[i].Add?) ==> CountOn(ts) == 0
  {
    if ts != [] {
      CountAlike(ts[..|ts| - 1]);
    }
  }

  lemma TaskCounts(d: Diff)
    ensures CountOff(Tasks(d)) == |d.toDeactivate| && CountOn(Tasks(d)) == |d.toAdd|
  {
    var a, b, c, e := Deactivations(d), Credentials(d), Policies(d), Additions(d);
    CountConcat(a, b);
    CountConcat(a + b, c);
    CountConcat(a + b + c, e);
    CountAlike(a);
    CountAlike(b);
    CountAlike(c);
    CountAlike(e);
  }

  lemma {:induction false} RunSwitches(x: Run, f: Faults, s: Session, ts: seq<Task>, n: nat)
    requires Underway(x, s, ts) && n <= |ts| && OneEntryPerContact(ts) && Numbered(s, {}) && OneCardEach(s.ctl)
    ensures |ActiveMembers(At(f, s, ts, n).ctl)| >= |ActiveMembers(s.ctl)| - CountOff(ts[..n])
    ensures |ActiveMembers(At(f, s, ts, n).ctl)| <= |ActiveMembers(s.ctl)| + CountOn(ts[..n])
  {
    if n == 0 {
      assert ts[..0] == [];
    } else {
      var m := n - 1;
      RunSwitches(x, f, s, ts, m);
      GoodAt(x, f, s, ts, m);
      AtNext(f, s, ts, m);
      RunKeepsSound(x, f, s, ts, m);
      TaskSwitches(x, f, At(f, s, ts, m), ts[m], AddedBy(ts[..m]));
      SwitchCount(ts[m], ActiveMembers(At(f, s, ts, m).ctl), ActiveMembers(At(f, s, ts, n).ctl));
      assert ts[..n][..m] == ts[..m];
    }
  }

  lemma RunBoundsPopulation(y: Round, p: Session, s': Session)
    requires Ran(y, p, s')
    ensures |ActiveMembers(p.ctl)| - |y.d.toDeactivate| <= |ActiveMembers(s'.ctl)|
    ensures |ActiveMembers(s'.ctl)| <= |ActiveMembers(p.ctl)| + |y.d.toAdd|
  {
    StartIsNumbered(y, p, s');
    WholeRunSwitches(RunOf(p, y.d), y.f, p, Tasks(y.d));
    TaskCounts(y.d);
  }

  lemma WholeRunSwitches(x: Run, f: Faults, s: Session, ts: seq<Task>)
    requires Underway(x, s, ts) && OneEntryPerContact(ts) && Numbered(s, {}) && OneCardEach(s.ctl)
    ensures |ActiveMembers(s.ctl)| - CountOff(ts) <= |ActiveMembers(RunTasks(f, s, ts).ctl)|
    ensures |ActiveMembers(RunTasks(f, s, ts).ctl)| <= |ActiveMembers(s.ctl)| + CountOn(ts)
  {
    RunSwitches(x, f, s, ts, |ts|);
    assert ts[..|ts|] == ts;
  }

  /** Whatever fails or is sent twice, an apply loses at most its deactivations and gains at most its additions. */
  lemma ApplyBoundsPopulation(y: Round)
    requires Started(y)
    ensures var c, c' := y.s.ctl, Applied(y).s.ctl;
      |ActiveMembers(c)| - |y.d.toDeactivate| <= |ActiveMembers(c')| <= |ActiveMembers(c)| + |y.d.toAdd|
  {
    StartedIsGood(y);
    SameActive(y.s.ctl, RunStart(y).s.ctl);
    if RunStart(y).out.Fine? {
      AppliedIsRun(y);
      RunBoundsPopulation(y, RunStart(y).s, Applied(y).s);
    }
  }

  lemma SameActive(c: State, c': State)
    requires c.users == c'.users
    ensures ActiveMembers(c) == ActiveMembers(c')
  {
  }

  // ---- the exact count when nothing fails ----

  /** Deactivations concern accounts that are on, additions accounts that are off or missing. */
  ghost predicate Accurate(x: Run, s: Session, ts: seq<Task>) {
    && (forall i :: 0 <= i < |ts| && ts[i].Deactivate? ==>
          TaskContact(ts[i]) in x.cache0.userIds && SwitchedOnUser(s.ctl, x.cache0.userIds[TaskContact(ts[i])]))
    && (forall i :: 0 <= i < |ts| && ts[i].Add? && TaskContact(ts[i]) in x.cache0.userIds ==>
          !SwitchedOnUser(s.ctl, x.cache0.userIds[TaskContact(ts[i])]))
    && (forall i :: 0 <= i < |ts| && ts[i].Add? ==> TaskContact(ts[i]) > 0)
  }

  /** A known contact that was not added in this run has no other account. */
  lemma SoleAccount(s: Session, tried: set<ContactId>, k: ContactId, u: UserId)
    requires Numbered(s, tried) && k !in tried && k > 0 && IsKnownAs(s, u, k)
    ensures u in s.ctl.users && s.ctl.users[u].employee == Some(k)
    ensures k in ActiveMembers(s.ctl) <==> SwitchedOnUser(s.ctl, u)
  {
    forall v | v in s.ctl.users && s.ctl.users[v].employee == Some(k) ensures v == u {
      assert Managed(s.ctl.users[v].employee);
    }
  }

  lemma MemberIsOn(c: State, u: UserId, k: ContactId)
    requires u in c.users && c.users[u].employee == Some(k) && c.users[u].status == ACTIVE && k > 0
    ensures k in ActiveMembers(c)
  {
    assert SwitchedOnUser(c, u);
  }

  lemma DeactivationCounts(f: Faults, s: Session, t: Task, tried: set<ContactId>)
    requires t.Deactivate? && Named(t) && TaskContact(t) in s.cache.userIds && RunTask(f, s, t).failures == s.failures
    requires Numbered(s, tried) && Numbered(RunTask(f, s, t), tried) && TaskContact(t) !in tried
    requires SwitchedOnUser(s.ctl, s.cache.userIds[TaskContact(t)])
    ensures |ActiveMembers(RunTask(f, s, t).ctl)| == |ActiveMembers(s.ctl)| - 1
  {
    var k := TaskContact(t);
    var u := s.cache.userIds[k];
    KnownTaskSwitches(f, s, t);
    TaskTouches(f, s, s.cache.userIds, t);
    DeactivateEffect(f, s, k, u);
    StatusesDiffer();
    SoleAccount(s, tried, k, u);
    SoleAccount(RunTask(f, s, t), tried, k, u);
    assert ActiveMembers(RunTask(f, s, t).ctl) == ActiveMembers(s.ctl) - {k};
  }

  /** A reactivation that raises nothing leaves the account switched on. */
  lemma ReactivateSwitchesOn(f: Faults, s: Session, r: ResolvedMember, u: UserId)
    requires r.name != "" && r.contact in s.cache.userIds && s.cache.userIds[r.contact] == u && u in s.ctl.users
    requires Reactivate(f, s, r, u).out.Fine?
    ensures var c := Reactivate(f, s, r, u).s.ctl; u in c.users && c.users[u].status == ACTIVE
  {
  }

  lemma ReactivatedIsOn(f: Faults, s: Session, r: ResolvedMember)
    requires r.name != "" && r.contact in s.cache.userIds
    requires r.contact > 0 && RunTask(f, s, Add(r)).failures == s.failures
    requires var u := s.cache.userIds[r.contact]; u in s.ctl.users && s.ctl.users[u].employee == Some(r.contact)
    ensures r.contact in ActiveMembers(RunTask(f, s, Add(r)).ctl)
  {
    var u := s.cache.userIds[r.contact];
    TaskTouches(f, s, s.cache.userIds, Add(r));
    KnownEmployee(f, s, Add(r));
    ReactivateEffect(f, s, s.cache.userIds, r);
    ReactivateSwitchesOn(f, s, r, u);
    MemberIsOn(RunTask(f, s, Add(r)).ctl, u, r.contact);
  }

  lemma ReactivationCounts(f: Faults, s: Session, r: ResolvedMember, tried: set<ContactId>)
    requires r.name != "" && r.contact in s.cache.userIds
    requires r.contact > 0 && RunTask(f, s, Add(r)).failures == s.failures
    requires Numbered(s, tried) && r.contact !in tried && !SwitchedOnUser(s.ctl, s.cache.userIds[r.contact])
    ensures |ActiveMembers(RunTask(f, s, Add(r)).ctl)| == |ActiveMembers(s.ctl)| + 1
  {
    KnownTaskSwitches(f, s, Add(r));
    ReactivatedIsOn(f, s, r);
    SoleAccount(s, tried, r.contact, s.cache.userIds[r.contact]);
    assert ActiveMembers(RunTask(f, s, Add(r)).ctl) == ActiveMembers(s.ctl) + {r.contact};
  }

  lemma CreationCounts(x: Run, f: Faults, s: Session, r: ResolvedMember, tried: set<ContactId>)
    requires Good(x, s) && r.name != "" && r.contact !in s.cache.userIds && r.contact > 0
    requires Numbered(s, tried) && r.contact !in tried && RunTask(f, s, Add(r)).failures == s.failures
    ensures |ActiveMembers(RunTask(f, s, Add(r)).ctl)| == |ActiveMembers(s.ctl)| + 1
  {
    CreateSwitches(x, f, s, r);
    assert ActiveMembers(RunTask(f, s, Add(r)).ctl) == ActiveMembers(s.ctl) + {r.contact};
  }

  lemma ExactTurn(x: Run, f: Faults, s: Session, ts: seq<Task>, i: nat)
    requires Underway(x, s, ts) && i < |ts| && OneEntryPerContact(ts) && Numbered(s, {}) && OneCardEach(s.ctl)
    requires Accurate(x, s, ts) && !Fails(f, s, ts, i)
    ensures |ActiveMembers(At(f, s, ts, i + 1).ctl)| ==
            |ActiveMembers(At(f, s, ts, i).ctl)| + (if ts[i].Add? then 1 else 0) - (if ts[i].Deactivate? then 1 else 0)
  {
    var k, tried := TaskContact(ts[i]), AddedBy(ts[..i]);
    RunKeepsSound(x, f, s, ts, i);
    GoodAt(x, f, s, ts, i);
    AtNext(f, s, ts, i);
    AddedByOneMore(ts, i);
    if ts[i].Deactivate? || ts[i].Add? {
      if k in x.cache0.userIds {
        BeforeTurn(x, f, s, ts, i, k);
        if ts[i].Add? {
          ReactivationCounts(f, At(f, s, ts, i), ts[i].member, tried);
        } else {
          RunKeepsSound(x, f, s, ts, i + 1);
          DeactivationCounts(f, At(f, s, ts, i), ts[i], tried);
        }
      } else {
        Between(x, f, s, ts, 0, i, k);
        assert ts[..0] == [];
        CreationCounts(x, f, At(f, s, ts, i), ts[i].member, tried);
      }
    } else {
      TaskSwitches(x, f, At(f, s, ts, i), ts[i], tried);
    }
  }

  lemma CountNext(ts: seq<Task>, n: nat)
    requires n < |ts|
    ensures CountOff(ts[..n + 1]) == CountOff(ts[..n]) + (if ts[n].Deactivate? then 1 else 0)
    ensures CountOn(ts[..n + 1]) == CountOn(ts[..n]) + (if ts[n].Add? then 1 else 0)
  {
    assert ts[..n + 1][..n] == ts[..n];
  }

  lemma {:induction false} RunCountsExactly(x: Run, f: Faults, s: Session, ts: seq<Task>, n: nat)
    requires Underway(x, s, ts) && n <= |ts| && OneEntryPerContact(ts) && Numbered(s, {}) && OneCardEach(s.ctl)
    requires Accurate(x, s, ts) && forall i :: 0 <= i < |ts| ==> !Fails(f, s, ts, i)
    ensures |ActiveMembers(At(f, s, ts, n).ctl)| == |ActiveMembers(s.ctl)| - CountOff(ts[..n]) + CountOn(ts[..n])
  {
    if n == 0 {
      assert ts[..0] == [];
    } else {
      RunCountsExactly(x, f, s, ts, n - 1);
      ExactTurn(x, f, s, ts, n - 1);
      CountNext(ts, n - 1);
    }
  }

  lemma EntryIsAccurate(y: Round, t: Task)
    requires Started(y) && MembersOk(y.members, y.cfg.managed) && t in Tasks(y.d) && (t.Deactivate? || t.Add?)
    ensures var k, ids := TaskContact(t), y.s.cache.userIds;
      && (t.Add? ==> k > 0) && (t.Deactivate? ==> k in ids)
      && (k in ids ==> (SwitchedOnUser(y.s.ctl, ids[k]) <==> t.Deactivate?))
  {
    EntryPlaces(y.d);
    Reported(y.members, UsersIn(y), y.d);
    KnownIsShown(y, TaskContact(t));
  }

  lemma EntriesAreAccurate(y: Round)
    requires Started(y) && MembersOk(y.members, y.cfg.managed)
    ensures var ts, ids := Tasks(y.d), y.s.cache.userIds;
      forall i :: 0 <= i < |ts| && (ts[i].Deactivate? || ts[i].Add?) ==>
        && (ts[i].Add? ==> TaskContact(ts[i]) > 0)
        && (ts[i].Deactivate? ==> TaskContact(ts[i]) in ids)
        && (TaskContact(ts[i]) in ids ==> (SwitchedOnUser(y.s.ctl, ids[TaskContact(ts[i])]) <==> ts[i].Deactivate?))
  {
    var ts := Tasks(y.d);
    forall i | 0 <= i < |ts| && (ts[i].Deactivate? || ts[i].Add?)
      ensures ts[i].Add? ==> TaskContact(ts[i]) > 0
      ensures ts[i].Deactivate? ==> TaskContact(ts[i]) in y.s.cache.userIds
      ensures TaskContact(ts[i]) in y.s.cache.userIds ==>
                (SwitchedOnUser(y.s.ctl, y.s.cache.userIds[TaskContact(ts[i])]) <==> ts[i].Deactivate?)
    {
      EntryIsAccurate(y, ts[i]);
    }
  }

  lemma DiffIsAccurate(y: Round, p: Session)
    requires Started(y) && MembersOk(y.members, y.cfg.managed)
    requires p.ctl.users == y.s.ctl.users && p.cache.userIds == y.s.cache.userIds
    ensures Accurate(RunOf(p, y.d), p, Tasks(y.d))
  {
    EntriesAreAccurate(y);
  }

  lemma RunIsExact(y: Round, p: Session, s': Session)
    requires WentThrough(y, p, s') && MembersOk(y.members, y.cfg.managed)
    ensures |ActiveMembers(s'.ctl)| == |ActiveMembers(p.ctl)| - |y.d.toDeactivate| + |y.d.toAdd|
  {
    RunFacts(y, p, s');
    DiffIsAccurate(y, p);
    StartIsNumbered(y, p, s');
    WholeRunCounts(RunOf(p, y.d), y.f, p, Tasks(y.d));
    TaskCounts(y.d);
  }

  /** When nothing fails the count is exact: those deactivated are gone, those added are there. */
  lemma ApplyCountsExactly(y: Round)
    requires Started(y) && Applied(y).out.Fine? && MembersOk(y.members, y.cfg.managed)
    ensures |ActiveMembers(Applied(y).s.ctl)| == |ActiveMembers(y.s.ctl)| - |y.d.toDeactivate| + |y.d.toAdd|
  {
    StartedIsGood(y);
    AppliedIsRun(y);
    SameActive(y.s.ctl, RunStart(y).s.ctl);
    RunIsExact(y, RunStart(y).s, Applied(y).s);
  }

  lemma WholeRunCounts(x: Run, f: Faults, s: Session, ts: seq<Task>)
    requires Underway(x, s, ts) && OneEntryPerContact(ts) && Numbered(s, {}) && OneCardEach(s.ctl)
    requires Accurate(x, s, ts) && forall i :: 0 <= i < |ts| ==> !Fails(f, s, ts, i)
    ensures |ActiveMembers(RunTasks(f, s, ts).ctl)| == |ActiveMembers(s.ctl)| - CountOff(ts) + CountOn(ts)
  {
    RunCountsExactly(x, f, s, ts, |ts|);
    assert ts[..|ts|] == ts;
  }

  // ---- the baseline and the guards ----

  function CountActive(users: seq<UnifiUser>): nat {
    if users == [] then 0 else CountActive(users[..|users| - 1]) + if users[|users| - 1].active then 1 else 0
  }

  function RowUsers(rows: seq<UserRow>, c: State): set<UserId> {
    set i | 0 <= i < |rows| && SwitchedOnUser(c, rows[i].id) :: rows[i].id
  }

  lemma RowIsActive(row: UserRow, c: State, managed: Option<set<string>>)
    requires Shows(row, c, managed)
    ensures var x := ReadUser(row, CardNumbers(c), managed);
            (x.Some? && x.value.active) <==> SwitchedOnUser(c, row.id)
  {
  }

  lemma {:induction false} CountRows(rows: seq<UserRow>, c: State, managed: Option<set<string>>)
    requires forall i :: 0 <= i < |rows| ==> Shows(rows[i], c, managed)
    requires forall i, j :: 0 <= i < j < |rows| ==> rows[i].id != rows[j].id
    ensures CountActive(Fetched(rows, c, managed)) == |RowUsers(rows, c)|
  {
    if rows != [] {
      var n := |rows| - 1;
      CountRows(rows[..n], c, managed);
      RowIsActive(rows[n], c, managed);
      CountOneMore(rows, CardNumbers(c), managed);
      RowUsersOneMore(rows, c);
    }
  }

  lemma CountOneMore(rows: seq<UserRow>, m: map<Token, CardId>, managed: Option<set<string>>)
    requires rows != []
    ensures var x := ReadUser(rows[|rows| - 1], m, managed);
            CountActive(ReadUsers(rows, m, managed)) ==
            CountActive(ReadUsers(rows[..|rows| - 1], m, managed)) + if x.Some? && x.value.active then 1 else 0
  {
  }

  lemma RowUsersOneMore(rows: seq<UserRow>, c: State)
    requires rows != [] && forall i, j :: 0 <= i < j < |rows| ==> rows[i].id != rows[j].id
    ensures var n := |rows| - 1;
            |RowUsers(rows, c)| == |RowUsers(rows[..n], c)| + if SwitchedOnUser(c, rows[n].id) then 1 else 0
  {
    var n := |rows| - 1;
    RowUsersLast(rows, c);
    assert rows[n].id !in RowUsers(rows[..n], c);
  }

  lemma RowUsersLast(rows: seq<UserRow>, c: State)
    requires rows != []
    ensures var n := |rows| - 1;
            RowUsers(rows, c) == RowUsers(rows[..n], c) + if SwitchedOnUser(c, rows[n].id) then {rows[n].id} else {}
  {
  }

  /** The managed accounts that are switched on. */
  function ActiveUsers(c: State): set<UserId> {
    set u | u in c.users && SwitchedOnUser(c, u)
  }

  /** With one account per contact there are as many members as accounts. */
  lemma {:induction false} MembersAreAccounts(c: State, users: set<UserId>)
    requires users <= ActiveUsers(c) && UniqueContacts(c)
    ensures |set u | u in users :: c.users[u].employee.value| == |users|
    decreases |users|
  {
    if v :| v in users {
      MembersAreAccounts(c, users - {v});
      var rest := set u | u in users - {v} :: c.users[u].employee.value;
      assert (set u | u in users :: c.users[u].employee.value) == rest + {c.users[v].employee.value};
    }
  }

  /** The baseline the guards use is the number of members whose account is on. */
  lemma BaselineIsPopulation(rows: seq<UserRow>, c: State, managed: Option<set<string>>)
    requires Lists(rows, c, managed) && UniqueContacts(c)
    ensures CountActive(Fetched(rows, c, managed)) == |ActiveMembers(c)|
  {
    CountRows(rows, c, managed);
    assert RowUsers(rows, c) == ActiveUsers(c);
    MembersAreAccounts(c, ActiveUsers(c));
    assert ActiveMembers(c) == set u | u in ActiveUsers(c) :: c.users[u].employee.value;
  }

  // ---- many cycles ----

  /** A cycle that stopped before applying anything, or applied a guarded difference with any faults. */
  datatype CycleRun = Stopped(c: State) | Applies(y: Round)

  ghost predicate CycleOk(t: Thresholds, r: CycleRun) {
    r.Applies? ==> Started(r.y) && !TooManyChanges(r.y.d, CountActive(UsersIn(r.y)), t)
  }

  function Before(r: CycleRun): State {
    match r case Stopped(c) => c case Applies(y) => y.s.ctl
  }

  ghost function After(r: CycleRun): State {
    match r case Stopped(c) => c case Applies(y) => Applied(y).s.ctl
  }

  /** Each cycle starts from what the one before left. */
  ghost predicate Chain(t: Thresholds, runs: seq<CycleRun>) {
    && (forall i :: 0 <= i < |runs| ==> CycleOk(t, runs[i]))
    && (forall i :: 0 < i < |runs| ==> Before(runs[i]) == After(runs[i - 1]))
  }

  /** The guards were armed in every cycle that applied something. */
  ghost predicate Armed(t: Thresholds, runs: seq<CycleRun>) {
    forall i :: 0 <= i < |runs| && runs[i].Applies? ==> GuardsEngage(|ActiveMembers(Before(runs[i]))|, t)
  }

  function Power(b: real, n: nat): real {
    if n == 0 then 1.0 else b * Power(b, n - 1)
  }

  lemma FractionKept(count: nat, baseline: nat, pct: real)
    requires baseline > 0 && !Exceeds(count, baseline, pct)
    ensures count as real <= pct * baseline as real
  {
    var q := count as real / baseline as real;
    assert q * baseline as real == count as real;
    assert q <= pct;
  }

  ghost predicate Within(t: Thresholds, before: nat, after: nat) {
    (1.0 - t.deactivatePct) * before as real <= after as real <= (1.0 + t.addPct) * before as real
  }

  /** Counts within the guards stay within the fractions. */
  lemma WithinFractions(t: Thresholds, before: nat, after: nat, off: nat, on: nat)
    requires before > 0 && !Exceeds(off, before, t.deactivatePct) && !Exceeds(on, before, t.addPct)
    requires before - off <= after <= before + on
    ensures Within(t, before, after)
  {
    FractionKept(off, before, t.deactivatePct);
    FractionKept(on, before, t.addPct);
    Spread(t, before);
  }

  lemma Spread(t: Thresholds, before: nat)
    ensures (1.0 - t.deactivatePct) * before as real == before as real - t.deactivatePct * before as real
    ensures (1.0 + t.addPct) * before as real == before as real + t.addPct * before as real
  {
  }

  lemma Unchanged(t: Thresholds, before: nat)
    requires 0.0 <= t.deactivatePct && 0.0 <= t.addPct
    ensures Within(t, before, before)
  {
  }

  lemma ArmedGuards(t: Thresholds, y: Round)
    requires Lists(y.rows, y.s.ctl, y.cfg.managed)
    requires UniqueContacts(y.s.ctl) && GuardsEngage(|ActiveMembers(y.s.ctl)|, t)
    requires !TooManyChanges(y.d, CountActive(UsersIn(y)), t)
    ensures var n := |ActiveMembers(y.s.ctl)|;
      n > 0 && !Exceeds(|y.d.toDeactivate|, n, t.deactivatePct) && !Exceeds(|y.d.toAdd|, n, t.addPct)
  {
    BaselineIsPopulation(y.rows, y.s.ctl, y.cfg.managed);
  }

  lemma AppliedBound(t: Thresholds, y: Round)
    requires Started(y) && GuardsEngage(|ActiveMembers(y.s.ctl)|, t) && !TooManyChanges(y.d, CountActive(UsersIn(y)), t)
    ensures Within(t, |ActiveMembers(y.s.ctl)|, |ActiveMembers(Applied(y).s.ctl)|)
  {
    ArmedGuards(t, y);
    ApplyBoundsPopulation(y);
    WithinFractions(t, |ActiveMembers(y.s.ctl)|, |ActiveMembers(Applied(y).s.ctl)|, |y.d.toDeactivate|, |y.d.toAdd|);
  }

  /** One armed cycle keeps at least the allowed fraction, and adds at most the allowed one. */
  lemma OneCycleBound(t: Thresholds, r: CycleRun)
    requires CycleOk(t, r) && 0.0 <= t.deactivatePct && 0.0 <= t.addPct
    requires r.Applies? ==> GuardsEngage(|ActiveMembers(Before(r))|, t)
    ensures Within(t, |ActiveMembers(Before(r))|, |ActiveMembers(After(r))|)
  {
    match r {
      case Stopped(c) => Unchanged(t, |ActiveMembers(c)|);
      case Applies(y) => AppliedBound(t, y);
    }
  }

  /** The population before and after a whole chain. */
  ghost predicate Compounded(t: Thresholds, n: nat, first: nat, last: nat) {
    Power(1.0 - t.deactivatePct, n) * first as real <= last as real <= Power(1.0 + t.addPct, n) * first as real
  }

  lemma CompoundStep(t: Thresholds, n: nat, first: nat, before: nat, after: nat)
    requires Compounded(t, n, first, before) && Within(t, before, after)
    requires 0.0 <= t.deactivatePct <= 1.0 && 0.0 <= t.addPct
    ensures Compounded(t, n + 1, first, after)
  {
    StepDown(1.0 - t.deactivatePct, n, first as real, before as real, after as real);
    StepUp(1.0 + t.addPct, n, first as real, before as real, after as real);
  }

  lemma StepDown(b: real, n: nat, first: real, before: real, after: real)
    requires b >= 0.0 && Power(b, n) * first <= before && b * before <= after
    ensures Power(b, n + 1) * first <= after
  {
    Scale(b, Power(b, n) * first, before);
    Regroup(b, Power(b, n), first);
  }

  lemma StepUp(b: real, n: nat, first: real, before: real, after: real)
    requires b >= 0.0 && before <= Power(b, n) * first && after <= b * before
    ensures after <= Power(b, n + 1) * first
  {
    Scale(b, before, Power(b, n) * first);
    Regroup(b, Power(b, n), first);
  }

  lemma Regroup(b: real, x: real, y: real)
    ensures b * (x * y) == (b * x) * y
  {
  }

  lemma Scale(b: real, x: real, y: real)
    requires b >= 0.0 && x <= y
    ensures b * x <= b * y
  {
  }

  /** Over any number of cycles, stopped or applied, whatever fails, loss and growth compound at most. */
  lemma {:induction false} PopulationCompounds(t: Thresholds, runs: seq<CycleRun>)
    requires runs != [] && Chain(t, runs) && Armed(t, runs)
    requires 0.0 <= t.deactivatePct <= 1.0 && 0.0 <= t.addPct
    ensures Compounded(t, |runs|, |ActiveMembers(Before(runs[0]))|, |ActiveMembers(After(runs[|runs| - 1]))|)
  {
    var n := |runs| - 1;
    var first := |ActiveMembers(Before(runs[0]))|;
    OneCycleBound(t, runs[n]);
    if n == 0 {
      assert Power(1.0 - t.deactivatePct, 0) == 1.0 && Power(1.0 + t.addPct, 0) == 1.0;
      assert Compounded(t, 0, first, first);
    } else {
      PopulationCompounds(t, runs[..n]);
    }
    CompoundStep(t, n, first, |ActiveMembers(Before(runs[n]))|, |ActiveMembers(After(runs[n]))|);
  }
}
