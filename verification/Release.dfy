/**
What a run without request failures releases: members whose card changes, and returning members,
end up with no card but their own, even when their own bind is refused.
*/
module Release {
  import opened Models
  import opened Controller
  import opened Protocol
  import opened CardIndex
  import opened Effects
  import opened ForceBind
  import opened CardProtocol
  import opened Frame
  import opened Cycle
  import opened Isolation
  import opened Soundness
  import opened Fluency

  /** The user holds no card but the wanted one. */
  ghost predicate HoldsAtMost(c: State, u: UserId, wanted: Option<Token>) {
    forall t: Token :: Holds(c, u, t) ==> wanted == Some(t)
  }

  /** The write touches no card, the sweep takes the cached ones, and what follows brings only the wanted one. */
  lemma SweptThenGiven(s: Session, s1: Session, s2: Session, s3: Session, k: ContactId, u: UserId,
                       wanted: Option<Token>,
                       keep: Option<Token>)
    requires s1.ctl.bound == s.ctl.bound && (keep.None? || keep == wanted)
    requires forall t :: Holds(s2.ctl, u, t) ==> Holds(s1.ctl, u, t)
    requires forall t: Token :: t in CachedCards(s.cache, k) && Some(t) != keep ==> !Holds(s2.ctl, u, t)
    requires forall t: Token :: Holds(s3.ctl, u, t) ==> Holds(s2.ctl, u, t) || wanted == Some(t)
    ensures SweptTo(s, s3, k, u, wanted)
  {
  }

  lemma CredentialRuns(f: Faults, s: Session, p: Pair, u: UserId)
    requires p.member.name != "" && p.member.contact in s.cache.userIds && s.cache.userIds[p.member.contact] == u
    requires p.member.card != p.user.card && WriteRecord(f, s, u, CredentialFields(p.member, p.user)).out.Fine?
    requires var s1 := WriteRecord(f, s, u, CredentialFields(p.member, p.user)).s;
      Sweep(f, s1, u, CachedCards(s1.cache, p.member.contact), None).out.Fine?
    ensures var s1 := WriteRecord(f, s, u, CredentialFields(p.member, p.user)).s;
      var s2 := Sweep(f, s1, u, CachedCards(s1.cache, p.member.contact), None).s;
      RunTask(f, s, Credential(p)).ctl == AttachCard(f, s2, u, p.member.card).s.ctl
  {
  }

  /** Without faults a card change clears all other cards of the user. */
  lemma CredentialSweeps(x: Run, f: Faults, swept: set<ContactId>, s: Session, p: Pair)
    requires RunOk(x) && Tidy(x, f, swept, s) && NoFaults(f) && p.member in x.writers && p.member.name != ""
    requires p.member.contact in s.cache.userIds && p.member.contact !in swept && p.member.card != p.user.card
    ensures SweptTo(s, RunTask(f, s, Credential(p)), p.member.contact, s.cache.userIds[p.member.contact],
                    WantedToken(s.cache, p.member.card))
  {
    var k := p.member.contact;
    var u := s.cache.userIds[k];
    var fields := CredentialFields(p.member, p.user);
    WriteRecordWorks(f, s, u, fields);
    WriteRecordEffect(f, s, s.cache.userIds, k, fields);
    var s1 := WriteRecord(f, s, u, fields).s;
    OwnSweepWorks(x, f, swept, s, k, s1, None);
    SweepEffect(f, s1, u, CachedCards(s1.cache, k), None);
    var s2 := Sweep(f, s1, u, CachedCards(s1.cache, k), None).s;
    AttachEffect(f, s2, u, p.member.card);
    CredentialRuns(f, s, p, u);
    SweptThenGiven(s, s1, s2, RunTask(f, s, Credential(p)), k, u, WantedToken(s.cache, p.member.card), None);
  }

  lemma CredentialReleases(x: Run, f: Faults, swept: set<ContactId>, s: Session, p: Pair)
    requires RunOk(x) && Tidy(x, f, swept, s) && NoFaults(f) && p.member in x.writers && p.member.name != ""
    requires p.member.contact in s.cache.userIds && p.member.contact !in swept && p.member.card != p.user.card
    ensures HoldsAtMost(RunTask(f, s, Credential(p)).ctl, s.cache.userIds[p.member.contact],
                        WantedToken(s.cache, p.member.card))
  {
    CredentialSweeps(x, f, swept, s, p);
    SweptToIsWanted(x, s, RunTask(f, s, Credential(p)), p.member, s.cache.userIds[p.member.contact]);
  }

  lemma ReactivationRuns(f: Faults, s: Session, r: ResolvedMember, u: UserId)
    requires r.name != "" && r.contact in s.cache.userIds && s.cache.userIds[r.contact] == u
    requires WriteRecord(f, s, u, ReactivationFields(r)).out.Fine?
    requires var s1 := WriteRecord(f, s, u, ReactivationFields(r)).s;
      Sweep(f, s1, u, CachedCards(s1.cache, r.contact), WantedToken(s1.cache, r.card)).out.Fine?
    ensures var s1 := WriteRecord(f, s, u, ReactivationFields(r)).s;
      var s2 := Sweep(f, s1, u, CachedCards(s1.cache, r.contact), WantedToken(s1.cache, r.card)).s;
      RunTask(f, s, Add(r)).ctl == SwitchOn(f, s2, r, u).s.ctl
  {
    ReactivateUnfolds(f, s, r, u);
  }

  lemma ReactivationSweeps(x: Run, f: Faults, swept: set<ContactId>, s: Session, r: ResolvedMember)
    requires RunOk(x) && Tidy(x, f, swept, s) && NoFaults(f) && r in x.writers && r.name != ""
    requires r.contact in s.cache.userIds && r.contact !in swept
    ensures SweptTo(s, RunTask(f, s, Add(r)), r.contact, s.cache.userIds[r.contact], WantedToken(s.cache, r.card))
  {
    var k := r.contact;
    var u := s.cache.userIds[k];
    WriteRecordWorks(f, s, u, ReactivationFields(r));
    WriteRecordEffect(f, s, s.cache.userIds, k, ReactivationFields(r));
    var s1 := WriteRecord(f, s, u, ReactivationFields(r)).s;
    var wanted := WantedToken(s1.cache, r.card);
    OwnSweepWorks(x, f, swept, s, k, s1, wanted);
    SweepEffect(f, s1, u, CachedCards(s1.cache, k), wanted);
    var s2 := Sweep(f, s1, u, CachedCards(s1.cache, k), wanted).s;
    SwitchOnEffect(f, s2, r, u);
    ReactivationRuns(f, s, r, u);
    SweptThenGiven(s, s1, s2, RunTask(f, s, Add(r)), k, u, wanted, wanted);
  }

  lemma ReactivationReleases(x: Run, f: Faults, swept: set<ContactId>, s: Session, r: ResolvedMember)
    requires RunOk(x) && Tidy(x, f, swept, s) && NoFaults(f) && r in x.writers && r.name != ""
    requires r.contact in s.cache.userIds && r.contact !in swept
    ensures HoldsAtMost(RunTask(f, s, Add(r)).ctl, s.cache.userIds[r.contact], WantedToken(s.cache, r.card))
  {
    ReactivationSweeps(x, f, swept, s, r);
    SweptToIsWanted(x, s, RunTask(f, s, Add(r)), r, s.cache.userIds[r.contact]);
  }

  // ---- in a run ----

  ghost predicate Steady(x: Run, f: Faults, s: Session, ts: seq<Task>) {
    Underway(x, s, ts) && OneEntryPerContact(ts) && SweepsDisjoint(ts) && Tidy(x, f, {}, s) && NoFaults(f)
  }

  lemma ReleasedAt(x: Run, f: Faults, s: Session, ts: seq<Task>, i: nat, r: ResolvedMember)
    requires Steady(x, f, s, ts) && i < |ts| && r.contact in x.cache0.userIds
    requires ts[i] == Add(r) || (ts[i].Credential? && ts[i].pair.member == r && r.card != ts[i].pair.user.card)
    ensures HoldsAtMost(At(f, s, ts, i + 1).ctl, x.cache0.userIds[r.contact], WantedToken(x.cache0, r.card))
  {
    UserAt(x, f, s, ts, i, r.contact);
    GoodAt(x, f, s, ts, i);
    RunTasksKeepsTidy(x, f, s, ts[..i]);
    NotSweptYet(ts, i);
    AtNext(f, s, ts, i);
    if ts[i].Add? {
      ReactivationReleases(x, f, SweptBy(ts[..i]), At(f, s, ts, i), r);
    } else {
      CredentialReleases(x, f, SweptBy(ts[..i]), At(f, s, ts, i), ts[i].pair);
    }
  }

  /** After its card entry, a contact gains no further card. */
  lemma {:induction false} NoGains(x: Run, f: Faults, s: Session, ts: seq<Task>, m: nat, n: nat, k: ContactId)
    requires Underway(x, s, ts) && m <= n <= |ts| && k in x.cache0.userIds
    requires forall i :: m <= i < n && TaskContact(ts[i]) == k ==> ts[i].Policy?
    ensures forall t :: Holds(At(f, s, ts, n).ctl, x.cache0.userIds[k], t) ==>
              Holds(At(f, s, ts, m).ctl, x.cache0.userIds[k], t)
  {
    if m < n {
      NoGains(x, f, s, ts, m, n - 1, k);
      UserAt(x, f, s, ts, n - 1, k);
      GainAt(x, f, s, ts, n - 1, k);
    }
  }

  lemma GainAt(x: Run, f: Faults, s: Session, ts: seq<Task>, i: nat, k: ContactId)
    requires Underway(x, s, ts) && i < |ts| && k in x.cache0.userIds
    requires TaskContact(ts[i]) == k ==> ts[i].Policy?
    ensures forall t :: Holds(At(f, s, ts, i + 1).ctl, x.cache0.userIds[k], t) ==>
              Holds(At(f, s, ts, i).ctl, x.cache0.userIds[k], t)
  {
    var si := At(f, s, ts, i);
    var u := x.cache0.userIds[k];
    UserAt(x, f, s, ts, i, k);
    GoodAt(x, f, s, ts, i);
    AtNext(f, s, ts, i);
    if TaskContact(ts[i]) == k {
      AssignEffect(f, si, u, ts[i].pair.member.policy);
    } else {
      TaskLeaves(x, f, si, ts[i], k);
      assert AccountKept(x, k, u, si, At(f, s, ts, i + 1));
    }
  }

  /** At the end of the run, the contact holds no card but its own. */
  lemma Released(x: Run, f: Faults, s: Session, ts: seq<Task>, i: nat, r: ResolvedMember)
    requires Steady(x, f, s, ts) && i < |ts| && r.contact in x.cache0.userIds
    requires ts[i] == Add(r) || (ts[i].Credential? && ts[i].pair.member == r && r.card != ts[i].pair.user.card)
    ensures HoldsAtMost(RunTasks(f, s, ts).ctl, x.cache0.userIds[r.contact], WantedToken(x.cache0, r.card))
  {
    ReleasedAt(x, f, s, ts, i, r);
    NoGains(x, f, s, ts, i + 1, |ts|, r.contact);
    AtEnd(f, s, ts);
  }

  // ---- statuses ----

  /** The account stays in its status, or is deactivated, unless an entry switches it on. */
  lemma {:induction false} StatusOf(x: Run, f: Faults, s: Session, ts: seq<Task>, n: nat, v: UserId)
    requires Underway(x, s, ts) && n <= |ts| && v in s.ctl.users
    requires forall i :: 0 <= i < n && ts[i].Add? ==> !IsKnownAs(s, v, TaskContact(ts[i]))
    ensures var c := At(f, s, ts, n).ctl; v in c.users && c.users[v].status in {s.ctl.users[v].status, DEACTIVATED}
  {
    if n == 0 {
      assert ts[..0] == [];
    } else {
      StatusOf(x, f, s, ts, n - 1, v);
      GoodAt(x, f, s, ts, n - 1);
      AtNext(f, s, ts, n - 1);
      StatusStep(x, f, At(f, s, ts, n - 1), ts[n - 1], v);
    }
  }

  lemma StatusStep(x: Run, f: Faults, s: Session, t: Task, v: UserId)
    requires RunOk(x) && Good(x, s) && Named(t) && TaskInRun(x, t) && v in s.ctl.users && v in x.c0.users
    requires t.Add? && TaskContact(t) in x.cache0.userIds ==> x.cache0.userIds[TaskContact(t)] != v
    ensures var c := RunTask(f, s, t).ctl; v in c.users && c.users[v].status in {s.ctl.users[v].status, DEACTIVATED}
  {
    var k := TaskContact(t);
    if k in s.cache.userIds {
      TaskTouches(f, s, s.cache.userIds, t);
      match t {
        case Deactivate(_) => DeactivateEffect(f, s, k, s.cache.userIds[k]);
        case Credential(p) => UpdateCredentialEffect(f, s, s.cache.userIds, p);
        case Policy(p) => AssignEffect(f, s, s.cache.userIds[k], p.member.policy);
        case Add(r) =>
      }
    } else if t.Add? {
      CreateSparesUser(x, f, s, t.member, v);
    }
  }

  lemma CreateSparesUser(x: Run, f: Faults, s: Session, r: ResolvedMember, v: UserId)
    requires Good(x, s) && r.name != "" && r.contact !in s.cache.userIds && v in s.ctl.users
    ensures var c := RunTask(f, s, Add(r)).ctl; v in c.users && c.users[v] == s.ctl.users[v]
  {
    CreateUnfolds(f, s, r);
    CreateWriteEffect(f, s, x.cache0.userIds, r.contact, CreationFields(r));
    var (s1, reply) := WriteUser(f, s, None, CreationFields(r));
    if reply.Created? {
      NewUserExists(f, s, r);
      EquipEffect(f, Registered(s1, r.contact, reply.user), r, reply.user);
    }
  }

  /** Without faults a departed member's account is off at the end. */
  lemma DeactivatedAtEnd(x: Run, f: Faults, s: Session, ts: seq<Task>, i: nat)
    requires Steady(x, f, s, ts) && i < |ts| && ts[i].Deactivate? && TaskContact(ts[i]) in x.cache0.userIds
    ensures var u := x.cache0.userIds[TaskContact(ts[i])]; var c := RunTasks(f, s, ts).ctl;
      u in c.users && c.users[u].status == DEACTIVATED
  {
    var k := TaskContact(ts[i]);
    var u := x.cache0.userIds[k];
    UserAt(x, f, s, ts, i, k);
    AtNext(f, s, ts, i);
    var si := At(f, s, ts, i);
    DeactivateEffect(f, si, k, u);
    SweepEffect(f, si, u, CachedCards(si.cache, k), None);
    assert DeactivateUser(f, si, k, u).out.Fine?;
    UserAt(x, f, s, ts, i + 1, k);
    Between(x, f, s, ts, i + 1, |ts|, k);
    AtEnd(f, s, ts);
    assert AccountKept(x, k, u, At(f, s, ts, i + 1), RunTasks(f, s, ts));
  }
}
