/**
Per-contact isolation: every entry of the difference is attempted whatever happens to the others,
and the failure list names exactly the contacts whose entry did not reach its goal.
*/
module Isolation {
  import opened Models
  import opened Controller
  import opened Protocol
  import opened Safety
  import opened Reconciler
  import opened Snapshot
  import opened CardIndex
  import opened Effects
  import opened ForceBind
  import opened CardProtocol
  import opened Frame
  import opened Requests
  import opened Cycle

  // ---- a run entry by entry ----

  /** The session after the first `i` entries. */
  ghost function At(f: Faults, s: Session, ts: seq<Task>, i: nat): Session
    requires AllNamed(ts) && i <= |ts|
  {
    RunTasks(f, s, ts[..i])
  }

  lemma AtNext(f: Faults, s: Session, ts: seq<Task>, i: nat)
    requires AllNamed(ts) && i < |ts|
    ensures At(f, s, ts, i + 1) == RunTask(f, At(f, s, ts, i), ts[i])
  {
    assert ts[..i + 1][..i] == ts[..i];
  }

  lemma AtEnd(f: Faults, s: Session, ts: seq<Task>)
    requires AllNamed(ts)
    ensures At(f, s, ts, |ts|) == RunTasks(f, s, ts)
  {
    assert ts[..|ts|] == ts;
  }

  /** A run about to start. */
  ghost predicate Underway(x: Run, s: Session, ts: seq<Task>) {
    RunOk(x) && Good(x, s) && InRun(x, ts) && s.cache == x.cache0 && s.ctl == x.c0
  }

  lemma GoodAt(x: Run, f: Faults, s: Session, ts: seq<Task>, i: nat)
    requires Underway(x, s, ts) && i <= |ts|
    ensures Good(x, At(f, s, ts, i))
  {
    RunTasksKeepsGood(x, f, s, ts[..i]);
  }

  lemma RunSlice(f: Faults, s: Session, ts: seq<Task>, i: nat, j: nat)
    requires AllNamed(ts) && i <= j <= |ts|
    ensures At(f, s, ts, j) == RunTasks(f, At(f, s, ts, i), ts[i..j])
  {
    assert ts[..i] + ts[i..j] == ts[..j];
    RunTasksSplit(f, s, ts[..i], ts[i..j]);
  }

  /** Between its own entries, a contact's account is left alone. */
  lemma Between(x: Run, f: Faults, s: Session, ts: seq<Task>, i: nat, j: nat, k: ContactId)
    requires Underway(x, s, ts) && i <= j <= |ts|
    requires forall m :: i <= m < j ==> TaskContact(ts[m]) != k
    ensures Leaves(x, k, At(f, s, ts, i), At(f, s, ts, j))
  {
    GoodAt(x, f, s, ts, i);
    RunSlice(f, s, ts, i, j);
    TasksLeave(x, f, At(f, s, ts, i), ts[i..j], k);
  }

  lemma StepGrows(x: Run, f: Faults, s: Session, t: Task)
    requires RunOk(x) && Good(x, s) && Named(t) && TaskInRun(x, t)
    ensures var s' := RunTask(f, s, t);
      && s.log <= s'.log && s'.ctl.cards == s.ctl.cards
      && (s'.failures == s.failures || s'.failures == s.failures + [TaskContact(t)])
  {
    TaskLeaves(x, f, s, t, TaskContact(t) + 1);
    if TaskContact(t) in s.cache.userIds {
      TaskTouches(f, s, s.cache.userIds, t);
    } else if t.Add? {
      CreateUnfolds(f, s, t.member);
      CreateWriteEffect(f, s, x.cache0.userIds, t.member.contact, CreationFields(t.member));
      RegisteredIsGood(x, f, s, t.member);
      var (s1, reply) := WriteUser(f, s, None, CreationFields(t.member));
      if reply.Created? {
        EquipEffect(f, Registered(s1, t.member.contact, reply.user), t.member, reply.user);
      }
    }
  }

  /** The entry ended in an error. */
  ghost predicate Fails(f: Faults, s: Session, ts: seq<Task>, i: nat)
    requires AllNamed(ts) && i < |ts|
  {
    RunTask(f, At(f, s, ts, i), ts[i]).failures != At(f, s, ts, i).failures
  }

  /** One entry adds its contact to the failures exactly when it fails. */
  lemma FailureStep(x: Run, f: Faults, s: Session, ts: seq<Task>, i: nat)
    requires Underway(x, s, ts) && i < |ts|
    ensures At(f, s, ts, i + 1).failures ==
            At(f, s, ts, i).failures + if Fails(f, s, ts, i) then [TaskContact(ts[i])] else []
  {
    GoodAt(x, f, s, ts, i);
    AtNext(f, s, ts, i);
    StepGrows(x, f, At(f, s, ts, i), ts[i]);
  }

  ghost predicate FailedBefore(f: Faults, s: Session, ts: seq<Task>, n: nat, k: ContactId)
    requires AllNamed(ts) && n <= |ts|
  {
    exists i :: 0 <= i < n && TaskContact(ts[i]) == k && Fails(f, s, ts, i)
  }

  /** The failure list names exactly the contacts with a failed entry. */
  lemma {:induction false} FailuresAreNamed(x: Run, f: Faults, s: Session, ts: seq<Task>, n: nat, k: ContactId)
    requires Underway(x, s, ts) && s.failures == [] && n <= |ts|
    ensures k in At(f, s, ts, n).failures <==> FailedBefore(f, s, ts, n, k)
  {
    if n > 0 {
      FailuresAreNamed(x, f, s, ts, n - 1, k);
      FailureStep(x, f, s, ts, n - 1);
      if FailedBefore(f, s, ts, n - 1, k) {
        var i :| 0 <= i < n - 1 && TaskContact(ts[i]) == k && Fails(f, s, ts, i);
        assert FailedBefore(f, s, ts, n, k);
      }
      if k == TaskContact(ts[n - 1]) && Fails(f, s, ts, n - 1) {
        assert FailedBefore(f, s, ts, n, k);
      }
    }
  }

  /** Without failures, every entry went through. */
  lemma NoneFailed(x: Run, f: Faults, s: Session, ts: seq<Task>, i: nat)
    requires Underway(x, s, ts) && s.failures == [] && RunTasks(f, s, ts).failures == [] && i < |ts|
    ensures !Fails(f, s, ts, i)
  {
    FailuresAreNamed(x, f, s, ts, |ts|, TaskContact(ts[i]));
    AtEnd(f, s, ts);
    assert !FailedBefore(f, s, ts, |ts|, TaskContact(ts[i]));
  }

  // ---- which entry sent a request ----

  ghost predicate CannotSend(log: seq<Event>, log': seq<Event>, r: Request) {
    log <= log' && forall i :: |log| <= i < |log'| ==> log'[i].request != r
  }

  lemma JoinSegments(a: seq<Event>, b: seq<Event>, c: seq<Event>, r: Request)
    requires a <= b <= c
    ensures DoneSince(a, c, r) <==> DoneSince(a, b, r) || DoneSince(b, c, r)
    ensures SentSince(a, c, r) <==> SentSince(a, b, r) || SentSince(b, c, r)
  {
  }

  /** A request that only entry `i` can send is sent, or done, in the run exactly when entry `i` did so. */
  lemma {:induction false} OnlySender(x: Run, f: Faults, s: Session, ts: seq<Task>, i: nat, n: nat, r: Request)
    requires Underway(x, s, ts) && i < |ts| && n <= |ts|
    requires forall j :: 0 <= j < |ts| && j != i ==> CannotSend(At(f, s, ts, j).log, At(f, s, ts, j + 1).log, r)
    ensures s.log <= At(f, s, ts, n).log
    ensures DoneSince(s.log, At(f, s, ts, n).log, r) <==>
              i < n && DoneSince(At(f, s, ts, i).log, At(f, s, ts, i + 1).log, r)
    ensures SentSince(s.log, At(f, s, ts, n).log, r) <==>
              i < n && SentSince(At(f, s, ts, i).log, At(f, s, ts, i + 1).log, r)
  {
    if n > 0 {
      var m := n - 1;
      OnlySender(x, f, s, ts, i, m, r);
      GoodAt(x, f, s, ts, m);
      AtNext(f, s, ts, m);
      StepGrows(x, f, At(f, s, ts, m), ts[m]);
      JoinSegments(s.log, At(f, s, ts, m).log, At(f, s, ts, n).log, r);
    }
  }

  /** Requests about a known contact's user come from that contact's entries. */
  lemma OthersCannotSend(x: Run, f: Faults, s: Session, ts: seq<Task>, j: nat, k: ContactId, r: Request)
    requires Underway(x, s, ts) && j < |ts| && TaskContact(ts[j]) != k
    requires k in x.cache0.userIds && About(r, x.cache0.userIds[k])
    ensures CannotSend(At(f, s, ts, j).log, At(f, s, ts, j + 1).log, r)
  {
    GoodAt(x, f, s, ts, j);
    AtNext(f, s, ts, j);
    TaskLeaves(x, f, At(f, s, ts, j), ts[j], k);
    assert AccountKept(x, k, x.cache0.userIds[k], At(f, s, ts, j), At(f, s, ts, j + 1));
  }

  /** An entry that is alone for its contact is the only sender of requests about its user. */
  lemma SoleSender(x: Run, f: Faults, s: Session, ts: seq<Task>, i: nat, r: Request)
    requires Underway(x, s, ts) && i < |ts|
    requires forall j :: 0 <= j < |ts| && j != i ==> TaskContact(ts[j]) != TaskContact(ts[i])
    requires var k := TaskContact(ts[i]); k in x.cache0.userIds && About(r, x.cache0.userIds[k])
    ensures var s' := RunTasks(f, s, ts);
      && (DoneSince(s.log, s'.log, r) <==> DoneSince(At(f, s, ts, i).log, At(f, s, ts, i + 1).log, r))
      && (SentSince(s.log, s'.log, r) <==> SentSince(At(f, s, ts, i).log, At(f, s, ts, i + 1).log, r))
  {
    forall j | 0 <= j < |ts| && j != i ensures CannotSend(At(f, s, ts, j).log, At(f, s, ts, j + 1).log, r) {
      OthersCannotSend(x, f, s, ts, j, TaskContact(ts[i]), r);
    }
    OnlySender(x, f, s, ts, i, |ts|, r);
    AtEnd(f, s, ts);
  }

  // ---- the fate of each kind of entry ----

  /** The entry is the only one of its contact. */
  ghost predicate Sole(ts: seq<Task>, i: nat)
    requires i < |ts|
  {
    forall j :: 0 <= j < |ts| && j != i ==> TaskContact(ts[j]) != TaskContact(ts[i])
  }

  lemma SoleFails(x: Run, f: Faults, s: Session, ts: seq<Task>, i: nat)
    requires Underway(x, s, ts) && s.failures == [] && i < |ts| && Sole(ts, i)
    ensures TaskContact(ts[i]) in RunTasks(f, s, ts).failures <==> Fails(f, s, ts, i)
  {
    FailuresAreNamed(x, f, s, ts, |ts|, TaskContact(ts[i]));
    AtEnd(f, s, ts);
    assert Fails(f, s, ts, i) ==> FailedBefore(f, s, ts, |ts|, TaskContact(ts[i]));
  }

  /** The known user of an entry's contact, when the entry's turn comes. */
  lemma UserAt(x: Run, f: Faults, s: Session, ts: seq<Task>, i: nat, k: ContactId)
    requires Underway(x, s, ts) && i <= |ts| && k in x.cache0.userIds
    ensures var si, u := At(f, s, ts, i), x.cache0.userIds[k];
      k in si.cache.userIds && si.cache.userIds[k] == u && u in si.ctl.users
  {
    GoodAt(x, f, s, ts, i);
  }

  /**
  A departed member: the status is always asked for, even when freeing the cards failed; the contact is
  reported exactly when that request failed; and if it is not reported, the account is off in the end.
  */
  lemma DeactivationFate(x: Run, f: Faults, s: Session, ts: seq<Task>, i: nat)
    requires Underway(x, s, ts) && s.failures == [] && i < |ts| && Sole(ts, i)
    requires ts[i].Deactivate? && TaskContact(ts[i]) in x.cache0.userIds
    ensures var k := TaskContact(ts[i]); var u := x.cache0.userIds[k]; var s' := RunTasks(f, s, ts);
      && SentSince(s.log, s'.log, SetStatus(u, DEACTIVATED))
      && (k in s'.failures <==> !DoneSince(s.log, s'.log, SetStatus(u, DEACTIVATED)))
      && (k !in s'.failures ==> u in s'.ctl.users && s'.ctl.users[u].status == DEACTIVATED)
  {
    var k := TaskContact(ts[i]);
    var u := x.cache0.userIds[k];
    UserAt(x, f, s, ts, i, k);
    AtNext(f, s, ts, i);
    DeactivateSends(f, At(f, s, ts, i), k, u);
    DeactivateEffect(f, At(f, s, ts, i), k, u);
    SoleSender(x, f, s, ts, i, SetStatus(u, DEACTIVATED));
    SoleFails(x, f, s, ts, i);
    Between(x, f, s, ts, i + 1, |ts|, k);
    UserAt(x, f, s, ts, i + 1, k);
    AtEnd(f, s, ts);
    assert AccountKept(x, k, u, At(f, s, ts, i + 1), RunTasks(f, s, ts));
  }

  lemma ReactivationStep(f: Faults, s: Session, r: ResolvedMember, u: UserId)
    requires r.name != "" && r.contact in s.cache.userIds && s.cache.userIds[r.contact] == u && u in s.ctl.users
    ensures var s' := RunTask(f, s, Add(r));
      && SentSince(s.log, s'.log, UpdateUser(u, ReactivationFields(r)))
      && (s'.failures != s.failures <==> !DoneSince(s.log, s'.log, SetStatus(u, ACTIVE)))
  {
    ReactivateSends(f, s, r, u);
    ReactivateEffect(f, s, s.cache.userIds, r);
  }

  /** A returning member is reported exactly when its account was not switched on. */
  lemma ReactivationFate(x: Run, f: Faults, s: Session, ts: seq<Task>, i: nat)
    requires Underway(x, s, ts) && s.failures == [] && i < |ts| && Sole(ts, i)
    requires ts[i].Add? && TaskContact(ts[i]) in x.cache0.userIds
    ensures var k := TaskContact(ts[i]); var u := x.cache0.userIds[k]; var s' := RunTasks(f, s, ts);
      && SentSince(s.log, s'.log, UpdateUser(u, ReactivationFields(ts[i].member)))
      && (k in s'.failures <==> !DoneSince(s.log, s'.log, SetStatus(u, ACTIVE)))
  {
    var u := x.cache0.userIds[TaskContact(ts[i])];
    UserAt(x, f, s, ts, i, TaskContact(ts[i]));
    AtNext(f, s, ts, i);
    ReactivationStep(f, At(f, s, ts, i), ts[i].member, u);
    SoleSender(x, f, s, ts, i, UpdateUser(u, ReactivationFields(ts[i].member)));
    SoleSender(x, f, s, ts, i, SetStatus(u, ACTIVE));
    SoleFails(x, f, s, ts, i);
  }

  lemma PolicyStep(f: Faults, s: Session, p: Pair, u: UserId)
    requires p.member.contact in s.cache.userIds && s.cache.userIds[p.member.contact] == u && p.member.policy.Some?
    ensures var s' := RunTask(f, s, Policy(p)); var goal := SetPolicies(u, [p.member.policy.value]);
      && SentSince(s.log, s'.log, goal)
      && (s'.failures != s.failures <==> !DoneSince(s.log, s'.log, goal))
  {
    AssignSends(f, s, u, p.member.policy);
    AssignEffect(f, s, u, p.member.policy);
  }

  lemma CredentialSendsKinds(f: Faults, s: Session, p: Pair, u: UserId)
    requires p.member.name != ""
    ensures Sends(s.log, UpdateCredential(f, s, p, u).s.log, {Updates, Deletes, Binds})
  {
    var written := WriteRecord(f, s, u, CredentialFields(p.member, p.user));
    WriteRecordSends(f, s, u, CredentialFields(p.member, p.user));
    if written.out.Fine? && p.member.card != p.user.card {
      SwapSends(f, written.s, p, u);
      SendsTransitive(s.log, written.s.log, UpdateCredential(f, s, p, u).s.log, {Updates}, {Deletes, Binds});
    }
  }

  /** The card part of a credential entry. */
  lemma SwapSends(f: Faults, s: Session, p: Pair, u: UserId)
    ensures var swept := Sweep(f, s, u, CachedCards(s.cache, p.member.contact), None);
      && Sends(s.log, swept.s.log, {Deletes, Binds})
      && Sends(s.log, AttachCard(f, swept.s, u, p.member.card).s.log, {Deletes, Binds})
  {
    var tokens := CachedCards(s.cache, p.member.contact);
    SweepSends(f, s, u, tokens, None);
    var s2 := Sweep(f, s, u, tokens, None).s;
    AttachSends(f, s2, u, p.member.card);
    SendsTransitive(s.log, s2.log, AttachCard(f, s2, u, p.member.card).s.log, {Deletes}, {Binds});
  }

  lemma CredentialTaskSends(f: Faults, s: Session, p: Pair, u: UserId)
    requires p.member.name != "" && p.member.contact in s.cache.userIds && s.cache.userIds[p.member.contact] == u
    ensures Sends(s.log, RunTask(f, s, Credential(p)).log, {Updates, Deletes, Binds})
  {
    CredentialSendsKinds(f, s, p, u);
  }

  lemma CredentialStep(f: Faults, s: Session, p: Pair, u: UserId)
    requires p.member.name != "" && p.member.contact in s.cache.userIds && s.cache.userIds[p.member.contact] == u
    requires u in s.ctl.users && p.member.card != p.user.card && WantedToken(s.cache, p.member.card).Some?
    ensures var s' := RunTask(f, s, Credential(p));
      s'.failures != s.failures <==> !BoundSince(s.log, s'.log, u, WantedToken(s.cache, p.member.card).value)
  {
    CredentialSends(f, s, p, u);
    UpdateCredentialEffect(f, s, s.cache.userIds, p);
  }

  lemma CredentialSetsNoPolicy(x: Run, f: Faults, s: Session, ts: seq<Task>, j: nat, r: Request)
    requires Underway(x, s, ts) && j < |ts| && ts[j].Credential? && TaskContact(ts[j]) in x.cache0.userIds
    requires KindOf(r) == Policing
    ensures CannotSend(At(f, s, ts, j).log, At(f, s, ts, j + 1).log, r)
  {
    UserAt(x, f, s, ts, j, TaskContact(ts[j]));
    AtNext(f, s, ts, j);
    CredentialTaskSends(f, At(f, s, ts, j), ts[j].pair, x.cache0.userIds[TaskContact(ts[j])]);
  }

  /** The policy entry of a contact is always sent, and fails exactly when its request does. */
  lemma PolicyFate(x: Run, f: Faults, s: Session, ts: seq<Task>, i: nat)
    requires Underway(x, s, ts) && i < |ts| && OneEntryPerContact(ts)
    requires ts[i].Policy? && ts[i].pair.member.policy.Some? && TaskContact(ts[i]) in x.cache0.userIds
    ensures var s' := RunTasks(f, s, ts);
            var goal := SetPolicies(x.cache0.userIds[TaskContact(ts[i])], [ts[i].pair.member.policy.value]);
      && SentSince(s.log, s'.log, goal)
      && (Fails(f, s, ts, i) <==> !DoneSince(s.log, s'.log, goal))
  {
    var k := TaskContact(ts[i]);
    var u := x.cache0.userIds[k];
    var goal := SetPolicies(u, [ts[i].pair.member.policy.value]);
    UserAt(x, f, s, ts, i, k);
    AtNext(f, s, ts, i);
    PolicyStep(f, At(f, s, ts, i), ts[i].pair, u);
    forall j | 0 <= j < |ts| && j != i ensures CannotSend(At(f, s, ts, j).log, At(f, s, ts, j + 1).log, goal) {
      if TaskContact(ts[j]) == k {
        CredentialSetsNoPolicy(x, f, s, ts, j, goal);
      } else {
        OthersCannotSend(x, f, s, ts, j, k, goal);
      }
    }
    OnlySender(x, f, s, ts, i, |ts|, goal);
    AtEnd(f, s, ts);
  }

  /** A credential entry that brings a card fails exactly when the card was not bound. */
  lemma CredentialFate(x: Run, f: Faults, s: Session, ts: seq<Task>, i: nat, t: Token)
    requires Underway(x, s, ts) && i < |ts| && OneEntryPerContact(ts)
    requires ts[i].Credential? && TaskContact(ts[i]) in x.cache0.userIds
    requires ts[i].pair.member.card != ts[i].pair.user.card && WantedToken(s.cache, ts[i].pair.member.card) == Some(t)
    ensures Fails(f, s, ts, i) <==>
            !BoundSince(s.log, RunTasks(f, s, ts).log, x.cache0.userIds[TaskContact(ts[i])], t)
  {
    var k := TaskContact(ts[i]);
    var u := x.cache0.userIds[k];
    UserAt(x, f, s, ts, i, k);
    GoodAt(x, f, s, ts, i);
    AtNext(f, s, ts, i);
    CredentialStep(f, At(f, s, ts, i), ts[i].pair, u);
    OnlyCredentialSends(x, f, s, ts, i, BindCard(u, t, false));
    OnlyCredentialSends(x, f, s, ts, i, BindCard(u, t, true));
    AtEnd(f, s, ts);
  }

  /** Requests about the user of a credential entry, policies aside, come from that entry. */
  lemma OnlyCredentialSends(x: Run, f: Faults, s: Session, ts: seq<Task>, i: nat, r: Request)
    requires Underway(x, s, ts) && i < |ts| && OneEntryPerContact(ts)
    requires ts[i].Credential? && TaskContact(ts[i]) in x.cache0.userIds
    requires About(r, x.cache0.userIds[TaskContact(ts[i])]) && !r.SetPolicies?
    ensures DoneSince(s.log, At(f, s, ts, |ts|).log, r) <==> DoneSince(At(f, s, ts, i).log, At(f, s, ts, i + 1).log, r)
    ensures SentSince(s.log, At(f, s, ts, |ts|).log, r) <==> SentSince(At(f, s, ts, i).log, At(f, s, ts, i + 1).log, r)
  {
    var k := TaskContact(ts[i]);
    forall j | 0 <= j < |ts| && j != i ensures CannotSend(At(f, s, ts, j).log, At(f, s, ts, j + 1).log, r) {
      if TaskContact(ts[j]) == k {
        UserAt(x, f, s, ts, j, k);
        AtNext(f, s, ts, j);
        AssignSends(f, At(f, s, ts, j), x.cache0.userIds[k], ts[j].pair.member.policy);
        AssignEffect(f, At(f, s, ts, j), x.cache0.userIds[k], ts[j].pair.member.policy);
      } else {
        OthersCannotSend(x, f, s, ts, j, k, r);
      }
    }
    OnlySender(x, f, s, ts, i, |ts|, r);
  }

  lemma CredentialWriteStep(f: Faults, s: Session, p: Pair, u: UserId)
    requires p.member.name != "" && p.member.contact in s.cache.userIds && s.cache.userIds[p.member.contact] == u
    requires CredentialFields(p.member, p.user) != NOTHING
    ensures SentSince(s.log, RunTask(f, s, Credential(p)).log, UpdateUser(u, CredentialFields(p.member, p.user)))
  {
    var fields := CredentialFields(p.member, p.user);
    WriteRecordSends(f, s, u, fields);
    var s1 := WriteRecord(f, s, u, fields).s;
    SweepSends(f, s1, u, CachedCards(s1.cache, p.member.contact), None);
    var s2 := Sweep(f, s1, u, CachedCards(s1.cache, p.member.contact), None).s;
    AttachSends(f, s2, u, p.member.card);
    SentStays(s.log, s1.log, RunTask(f, s, Credential(p)).log, UpdateUser(u, fields));
  }

  // ---- new accounts ----

  /** The equipment of a new account, after a write that could not yet name it. */
  lemma EquipStep(f: Faults, log: seq<Event>, s: Session, r: ResolvedMember, u: UserId)
    requires r.policy.Some? && u in s.ctl.users && log <= s.log
    requires forall i :: |log| <= i < |s.log| ==> s.log[i].request.CreateUser?
    ensures var step := Equip(f, s, r, u);
      && step.s.cache.userIds == s.cache.userIds && step.s.failures == s.failures && s.log <= step.s.log
      && (step.out.Fine? <==> DoneSince(log, step.s.log, SetPolicies(u, [r.policy.value])))
  {
    var goal := SetPolicies(u, [r.policy.value]);
    EquipSends(f, s, r, u);
    EquipEffect(f, s, r, u);
    JoinSegments(log, s.log, Equip(f, s, r, u).s.log, goal);
    assert !DoneSince(log, s.log, goal);
  }

  lemma CreationAsked(f: Faults, s: Session, r: ResolvedMember)
    requires r.name != "" && r.contact !in s.cache.userIds
    ensures SentSince(s.log, RunTask(f, s, Add(r)).log, CreateUser(CreationFields(r)))
  {
    CreateSends(f, s, r);
  }

  lemma CreationStep(x: Run, f: Faults, s: Session, r: ResolvedMember)
    requires RunOk(x) && Good(x, s) && r in x.writers && r.name != "" && r.policy.Some? && r.contact !in s.cache.userIds
    ensures var s' := RunTask(f, s, Add(r)); var k := r.contact;
      s'.failures == s.failures <==>
        k in s'.cache.userIds && DoneSince(s.log, s'.log, SetPolicies(s'.cache.userIds[k], [r.policy.value]))
  {
    CreateUnfolds(f, s, r);
    CreateWriteEffect(f, s, x.cache0.userIds, r.contact, CreationFields(r));
    var (s1, reply) := WriteUser(f, s, None, CreationFields(r));
    if reply.Created? {
      EquipStep(f, s.log, Registered(s1, r.contact, reply.user), r, reply.user);
    }
  }

  lemma NewUserExists(f: Faults, s: Session, r: ResolvedMember)
    requires r.name != "" && WriteUser(f, s, None, CreationFields(r)).1.Created?
    ensures var (s1, reply) := WriteUser(f, s, None, CreationFields(r)); reply.user in s1.ctl.users
  {
  }

  /** Around its own entry, a new contact stays unknown before, and its user is left alone after. */
  lemma AroundCreation(x: Run, f: Faults, s: Session, ts: seq<Task>, i: nat)
    requires Underway(x, s, ts) && i < |ts| && Sole(ts, i) && TaskContact(ts[i]) !in x.cache0.userIds
    ensures var k := TaskContact(ts[i]); var s' := RunTasks(f, s, ts); var sj := At(f, s, ts, i + 1);
      && k !in At(f, s, ts, i).cache.userIds
      && sj.log <= s'.log
      && (k in s'.cache.userIds <==> k in sj.cache.userIds)
      && (k in sj.cache.userIds ==>
            s'.cache.userIds[k] == sj.cache.userIds[k] && NoneAbout(sj.log, s'.log, sj.cache.userIds[k]))
  {
    var k := TaskContact(ts[i]);
    Between(x, f, s, ts, 0, i, k);
    assert ts[..0] == [];
    Between(x, f, s, ts, i + 1, |ts|, k);
    AtEnd(f, s, ts);
    var sj := At(f, s, ts, i + 1);
    if k in sj.cache.userIds {
      assert AccountKept(x, k, sj.cache.userIds[k], sj, RunTasks(f, s, ts));
    }
  }

  /** The turn of a new contact's entry. */
  lemma CreationTurn(x: Run, f: Faults, s: Session, ts: seq<Task>, i: nat)
    requires Underway(x, s, ts) && i < |ts| && ts[i].Add? && ts[i].member.policy.Some?
    requires TaskContact(ts[i]) !in At(f, s, ts, i).cache.userIds
    ensures var k := TaskContact(ts[i]); var si, sj := At(f, s, ts, i), At(f, s, ts, i + 1);
      && si.log <= sj.log && SentSince(si.log, sj.log, CreateUser(CreationFields(ts[i].member)))
      && (Fails(f, s, ts, i) <==>
            !(k in sj.cache.userIds &&
              DoneSince(si.log, sj.log, SetPolicies(sj.cache.userIds[k], [ts[i].member.policy.value]))))
  {
    GoodAt(x, f, s, ts, i);
    AtNext(f, s, ts, i);
    CreationAsked(f, At(f, s, ts, i), ts[i].member);
    CreationStep(x, f, At(f, s, ts, i), ts[i].member);
    StepGrows(x, f, At(f, s, ts, i), ts[i]);
  }

  /** A new member is reported exactly when no account came back or its policy was not set. */
  lemma CreationFate(x: Run, f: Faults, s: Session, ts: seq<Task>, i: nat)
    requires Underway(x, s, ts) && s.failures == [] && i < |ts| && Sole(ts, i)
    requires ts[i].Add? && ts[i].member.policy.Some? && TaskContact(ts[i]) !in x.cache0.userIds
    ensures var k := TaskContact(ts[i]); var s' := RunTasks(f, s, ts); var turn := At(f, s, ts, i).log;
      && SentSince(turn, s'.log, CreateUser(CreationFields(ts[i].member)))
      && (k in s'.failures <==>
            !(k in s'.cache.userIds &&
              DoneSince(turn, s'.log, SetPolicies(s'.cache.userIds[k], [ts[i].member.policy.value]))))
  {
    var k := TaskContact(ts[i]);
    var s' := RunTasks(f, s, ts);
    var si, sj := At(f, s, ts, i), At(f, s, ts, i + 1);
    AroundCreation(x, f, s, ts, i);
    CreationTurn(x, f, s, ts, i);
    SoleFails(x, f, s, ts, i);
    JoinSegments(si.log, sj.log, s'.log, CreateUser(CreationFields(ts[i].member)));
    if k in sj.cache.userIds {
      var goal := SetPolicies(sj.cache.userIds[k], [ts[i].member.policy.value]);
      JoinSegments(si.log, sj.log, s'.log, goal);
      NotSent(sj.log, s'.log, sj.cache.userIds[k], goal);
    }
  }

  lemma NotSent(log: seq<Event>, log': seq<Event>, u: UserId, r: Request)
    requires NoneAbout(log, log', u) && About(r, u)
    ensures !DoneSince(log, log', r)
  {
  }

  // ---- the failure list of one apply ----

  /** Where an entry of the difference stands in the run. */
  lemma EntryPlaces(d: Diff)
    ensures forall e :: e in d.toDeactivate ==> Deactivate(e) in Tasks(d)
    ensures forall e :: e in d.toUpdateCredential ==> Credential(e) in Tasks(d)
    ensures forall e :: e in d.toUpdatePolicy ==> Policy(e) in Tasks(d)
    ensures forall e :: e in d.toAdd ==> Add(e) in Tasks(d)
    ensures forall t :: t in Tasks(d) ==>
              match t
              case Deactivate(e) => e in d.toDeactivate
              case Credential(e) => e in d.toUpdateCredential
              case Policy(e) => e in d.toUpdatePolicy
              case Add(e) => e in d.toAdd
  {
    forall e | e in d.toDeactivate ensures Deactivate(e) in Deactivations(d) {
      var i :| 0 <= i < |d.toDeactivate| && d.toDeactivate[i] == e;
      assert Deactivations(d)[i] == Deactivate(e);
    }
    forall e | e in d.toUpdateCredential ensures Credential(e) in Credentials(d) {
      var i :| 0 <= i < |d.toUpdateCredential| && d.toUpdateCredential[i] == e;
      assert Credentials(d)[i] == Credential(e);
    }
    forall e | e in d.toUpdatePolicy ensures Policy(e) in Policies(d) {
      var i :| 0 <= i < |d.toUpdatePolicy| && d.toUpdatePolicy[i] == e;
      assert Policies(d)[i] == Policy(e);
    }
    forall e | e in d.toAdd ensures Add(e) in Additions(d) {
      var i :| 0 <= i < |d.toAdd| && d.toAdd[i] == e;
      assert Additions(d)[i] == Add(e);
    }
  }

  /** A round whose run went from session `p`, right after the import, to session `s'`. */
  ghost predicate Ran(y: Round, p: Session, s': Session) {
    && Started(y) && Agrees(y.s.cache, y.s.ctl) && p.failures == []
    && OnlyIndexed(y.s.(failures := []), p) && CardsExtend(y.s.ctl, p.ctl)
    && (Writers(y.d) != [] ==> CardsLoaded(p.cache, p.ctl) && TokensKnown(y.d, p.cache.tokenMap.value))
    && AllNamed(Tasks(y.d)) && OneEntryPerContact(Tasks(y.d)) && SweepsDisjoint(Tasks(y.d))
    && Underway(RunOf(p, y.d), p, Tasks(y.d)) && Tidy(RunOf(p, y.d), y.f, {}, p)
    && s' == RunTasks(y.f, p, Tasks(y.d))
  }

  /** Once the shared import is done, an apply is such a run, and raises exactly when a contact is reported. */
  lemma AppliedIsRun(y: Round)
    requires Started(y) && RunStart(y).out.Fine?
    ensures Ran(y, RunStart(y).s, Applied(y).s)
    ensures Applied(y).out.Fine? <==> Applied(y).s.failures == []
  {
    StartedIsGood(y);
    NamedApply(y.f, y.cfg, y.s, y.d);
  }

  /** The contact's only entry, where there can be only one. */
  lemma SoleEntry(ts: seq<Task>, t: Task) returns (i: nat)
    requires OneEntryPerContact(ts) && t in ts && (t.Deactivate? || t.Add?)
    ensures i < |ts| && ts[i] == t && Sole(ts, i)
  {
    i :| 0 <= i < |ts| && ts[i] == t;
  }

  /**
  Departed members: the deactivation is always asked for; exactly the contacts for which that request
  failed are reported; the account of every other one is off.
  */
  lemma DepartedMembers(y: Round, p: Session, s': Session, e: UnifiUser)
    requires Ran(y, p, s')
    requires e in y.d.toDeactivate && e.contact in y.s.cache.userIds
    ensures var u := y.s.cache.userIds[e.contact];
      && SentSince(p.log, s'.log, SetStatus(u, DEACTIVATED))
      && (e.contact in s'.failures <==> !DoneSince(p.log, s'.log, SetStatus(u, DEACTIVATED)))
      && (e.contact !in s'.failures ==> u in s'.ctl.users && s'.ctl.users[u].status == DEACTIVATED)
  {
    EntryPlaces(y.d);
    var i := SoleEntry(Tasks(y.d), Deactivate(e));
    DeactivationFate(RunOf(p, y.d), y.f, p, Tasks(y.d), i);
  }

  /** Returning members: exactly those whose account was not switched on are reported. */
  lemma ReturningMembers(y: Round, p: Session, s': Session, r: ResolvedMember)
    requires Ran(y, p, s')
    requires r in y.d.toAdd && r.contact in y.s.cache.userIds && r.name != ""
    ensures var u := y.s.cache.userIds[r.contact];
      && SentSince(p.log, s'.log, UpdateUser(u, ReactivationFields(r)))
      && (r.contact in s'.failures <==> !DoneSince(p.log, s'.log, SetStatus(u, ACTIVE)))
  {
    EntryPlaces(y.d);
    var i := SoleEntry(Tasks(y.d), Add(r));
    ReactivationFate(RunOf(p, y.d), y.f, p, Tasks(y.d), i);
  }

  lemma LogFromStart(x: Run, f: Faults, s: Session, ts: seq<Task>, i: nat)
    requires Underway(x, s, ts) && i < |ts| && Sole(ts, i)
    ensures s.log <= At(f, s, ts, i).log
  {
    Between(x, f, s, ts, 0, i, TaskContact(ts[i]));
    assert ts[..0] == [];
  }

  /** An entry names only users that exist when it is done. */
  ghost predicate NamesExisting(log: seq<Event>, log': seq<Event>, c: State) {
    log <= log' && forall i, u :: |log| <= i < |log'| && About(log'[i].request, u) ==> u in c.users
  }

  lemma EquipNamesExisting(f: Faults, s: Session, r: ResolvedMember, u: UserId)
    requires u in s.ctl.users
    ensures NamesExisting(s.log, Equip(f, s, r, u).s.log, Equip(f, s, r, u).s.ctl)
    ensures s.ctl.users.Keys == Equip(f, s, r, u).s.ctl.users.Keys
  {
    EquipEffect(f, s, r, u);
  }

  lemma MoreNamesExisting(a: seq<Event>, b: seq<Event>, c: seq<Event>, ctl: State)
    requires a <= b && NamesExisting(b, c, ctl)
    requires forall i :: |a| <= i < |b| ==> b[i].request.CreateUser?
    ensures NamesExisting(a, c, ctl)
  {
    assert forall i :: 0 <= i < |b| ==> c[i] == b[i];
  }

  lemma CreateNamesExisting(x: Run, f: Faults, s: Session, r: ResolvedMember)
    requires RunOk(x) && Good(x, s) && r in x.writers && r.name != "" && r.contact !in s.cache.userIds
    ensures NamesExisting(s.log, RunTask(f, s, Add(r)).log, RunTask(f, s, Add(r)).ctl)
    ensures s.ctl.users.Keys <= RunTask(f, s, Add(r)).ctl.users.Keys
  {
    CreateUnfolds(f, s, r);
    CreateWriteEffect(f, s, x.cache0.userIds, r.contact, CreationFields(r));
    var (s1, reply) := WriteUser(f, s, None, CreationFields(r));
    if reply.Created? {
      EquipNamesExisting(f, Registered(s1, r.contact, reply.user), r, reply.user);
      MoreNamesExisting(s.log, s1.log, RunTask(f, s, Add(r)).log, RunTask(f, s, Add(r)).ctl);
    }
  }

  lemma TaskNamesExisting(x: Run, f: Faults, s: Session, t: Task)
    requires RunOk(x) && Good(x, s) && Named(t) && TaskInRun(x, t)
    ensures NamesExisting(s.log, RunTask(f, s, t).log, RunTask(f, s, t).ctl)
    ensures s.ctl.users.Keys <= RunTask(f, s, t).ctl.users.Keys
  {
    if TaskContact(t) in s.cache.userIds {
      TaskTouches(f, s, s.cache.userIds, t);
    } else if t.Add? {
      CreateNamesExisting(x, f, s, t.member);
    }
  }

  lemma {:induction false} EarlierNamesExisting(x: Run, f: Faults, s: Session, ts: seq<Task>, n: nat)
    requires Underway(x, s, ts) && n <= |ts|
    ensures NamesExisting(s.log, At(f, s, ts, n).log, At(f, s, ts, n).ctl)
  {
    if n == 0 {
      assert ts[..0] == [];
    } else {
      var a, b := At(f, s, ts, n - 1), At(f, s, ts, n);
      EarlierNamesExisting(x, f, s, ts, n - 1);
      GoodAt(x, f, s, ts, n - 1);
      AtNext(f, s, ts, n - 1);
      TaskNamesExisting(x, f, a, ts[n - 1]);
      assert forall i :: 0 <= i < |a.log| ==> b.log[i] == a.log[i];
    }
  }

  /** The account a create is answered with did not exist before its entry. */
  lemma CreatedIsNew(x: Run, f: Faults, s: Session, r: ResolvedMember)
    requires RunOk(x) && Good(x, s) && r in x.writers && r.name != "" && r.contact !in s.cache.userIds
    ensures var s' := RunTask(f, s, Add(r));
      r.contact in s'.cache.userIds ==> s'.cache.userIds[r.contact] !in s.ctl.users
  {
    CreateUnfolds(f, s, r);
    CreateWriteEffect(f, s, x.cache0.userIds, r.contact, CreationFields(r));
    var (s1, reply) := WriteUser(f, s, None, CreationFields(r));
    if reply.Created? {
      EquipEffect(f, Registered(s1, r.contact, reply.user), r, reply.user);
    }
  }

  /** So nothing was asked for it earlier in the run. */
  lemma NothingAskedEarlier(x: Run, f: Faults, s: Session, ts: seq<Task>, i: nat, r: Request, u: UserId)
    requires Underway(x, s, ts) && i < |ts| && About(r, u) && u !in At(f, s, ts, i).ctl.users
    ensures !DoneSince(s.log, At(f, s, ts, i).log, r)
  {
    EarlierNamesExisting(x, f, s, ts, i);
  }

  lemma CreationReport(x: Run, f: Faults, s: Session, ts: seq<Task>, i: nat)
    requires Underway(x, s, ts) && s.failures == [] && i < |ts| && Sole(ts, i)
    requires ts[i].Add? && ts[i].member.policy.Some? && TaskContact(ts[i]) !in x.cache0.userIds
    ensures var k := TaskContact(ts[i]); var s' := RunTasks(f, s, ts);
      && SentSince(s.log, s'.log, CreateUser(CreationFields(ts[i].member)))
      && (k in s'.failures <==>
            !(k in s'.cache.userIds &&
              DoneSince(s.log, s'.log, SetPolicies(s'.cache.userIds[k], [ts[i].member.policy.value]))))
  {
    var k := TaskContact(ts[i]);
    var s', si := RunTasks(f, s, ts), At(f, s, ts, i);
    CreationFate(x, f, s, ts, i);
    AroundCreation(x, f, s, ts, i);
    LogFromStart(x, f, s, ts, i);
    GoodAt(x, f, s, ts, i);
    AtNext(f, s, ts, i);
    CreatedIsNew(x, f, si, ts[i].member);
    StepGrows(x, f, si, ts[i]);
    JoinSegments(s.log, si.log, s'.log, CreateUser(CreationFields(ts[i].member)));
    if k in s'.cache.userIds {
      var goal := SetPolicies(s'.cache.userIds[k], [ts[i].member.policy.value]);
      JoinSegments(s.log, si.log, s'.log, goal);
      NothingAskedEarlier(x, f, s, ts, i, goal, s'.cache.userIds[k]);
    }
  }

  /** New members: exactly those are reported for whom no account came back or whose policy was not set. */
  lemma NewMembers(y: Round, p: Session, s': Session, r: ResolvedMember)
    requires Ran(y, p, s')
    requires r in y.d.toAdd && r.contact !in y.s.cache.userIds && r.name != "" && r.policy.Some?
    ensures var k := r.contact;
      && SentSince(p.log, s'.log, CreateUser(CreationFields(r)))
      && (k in s'.failures <==>
            !(k in s'.cache.userIds && DoneSince(p.log, s'.log, SetPolicies(s'.cache.userIds[k], [r.policy.value]))))
  {
    EntryPlaces(y.d);
    var i := SoleEntry(Tasks(y.d), Add(r));
    CreationReport(RunOf(p, y.d), y.f, p, Tasks(y.d), i);
  }

  lemma IsWriter(d: Diff, w: ResolvedMember)
    requires w in d.toAdd || exists e :: e in d.toUpdateCredential && e.member == w
    ensures w in Writers(d)
  {
    if w in d.toAdd {
      var i :| 0 <= i < |d.toAdd| && d.toAdd[i] == w;
      assert Writers(d)[i] == w;
    } else {
      var i :| 0 <= i < |d.toUpdateCredential| && d.toUpdateCredential[i].member == w;
      assert Writers(d)[|d.toAdd| + i] == w;
    }
  }

  /** Every written card has a token once the import is done. */
  lemma WritersHaveTokens(y: Round, p: Session, s': Session,
                          w: ResolvedMember)
    requires Ran(y, p, s')
    requires w in Writers(y.d) && w.card.Some?
    ensures WantedToken(p.cache, w.card).Some?
  {
  }

  lemma CardEntryHasToken(y: Round, p: Session, s': Session, e: Pair)
    requires Ran(y, p, s') && e in y.d.toUpdateCredential && e.member.card.Some?
    ensures WantedToken(p.cache, e.member.card).Some? && Credential(e) in Tasks(y.d)
  {
    IsWriter(y.d, e.member);
    WritersHaveTokens(y, p, s', e.member);
    EntryPlaces(y.d);
  }

  /** A contact without an entry is never reported, and its account is left alone. */
  lemma BystandersAreSpared(y: Round, p: Session, s': Session, k: ContactId)
    requires Ran(y, p, s')
    requires forall t :: t in Tasks(y.d) ==> TaskContact(t) != k
    ensures
      && k !in s'.failures
      && Leaves(RunOf(p, y.d), k, p, s')
  {
    var x, ts := RunOf(p, y.d), Tasks(y.d);
    TasksLeave(x, y.f, p, ts, k);
  }
}
