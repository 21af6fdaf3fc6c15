/**
The report of a member whose account is on: it is in the failure list exactly when a request that decides
its credential entry or its policy entry failed, and each entry is attempted whatever happens to the others.
*/
module Reports {
  import opened Models
  import opened Controller
  import opened Protocol
  import opened Reconciler
  import opened Snapshot
  import opened Effects
  import opened ForceBind
  import opened CardProtocol
  import opened Frame
  import opened Requests
  import opened Cycle
  import opened Isolation
  import opened Accounts
  import opened Refinement

  // ---- failed writes and deletes ----

  /** A write that carries an email was refused because the email is taken; it is retried without. */
  predicate EmailDropped(e: Event) {
    e.request.UpdateUser? && e.request.fields.email.Some? && e.reply.Failed? && IsEmailConflict(e.reply.code)
  }

  /** A write of user `u`'s record or a delete of its card failed. */
  predicate WentWrong(e: Event, u: UserId) {
    && ((e.request.UpdateUser? && e.request.user == u) || (e.request.DeleteCard? && e.request.user == u))
    && e.reply.Failed? && !EmailDropped(e)
  }

  ghost predicate WrongSince(log: seq<Event>, log': seq<Event>, u: UserId) {
    exists i :: |log| <= i < |log'| && WentWrong(log'[i], u)
  }

  lemma WrongTransitive(a: seq<Event>, b: seq<Event>, c: seq<Event>, u: UserId)
    requires a <= b <= c
    ensures WrongSince(a, c, u) <==> WrongSince(a, b, u) || WrongSince(b, c, u)
  {
    assert forall i :: 0 <= i < |b| ==> b[i] == c[i];
  }

  /** One request is wrong exactly when it failed. */
  lemma CallGoesWrong(f: Faults, s: Session, r: Request, u: UserId)
    requires (r.UpdateUser? && r.user == u) || (r.DeleteCard? && r.user == u)
    ensures var (s1, reply) := Send(f, s, r);
      WrongSince(s.log, s1.log, u) <==> reply.Failed? && !EmailDropped(Event(r, s.ctl, reply))
  {
    var (s1, reply) := Send(f, s, r);
    assert s1.log[|s.log|] == Event(r, s.ctl, reply);
  }

  lemma WriteGoesWrong(f: Faults, s: Session, u: UserId, fields: Fields)
    ensures var r := WriteRecord(f, s, u, fields);
      s.log <= r.s.log && (r.out.Raised? <==> WrongSince(s.log, r.s.log, u))
  {
    if fields != NOTHING {
      var (s1, reply) := Send(f, s, UpdateUser(u, fields));
      CallGoesWrong(f, s, UpdateUser(u, fields), u);
      var rest := fields.(email := None);
      if reply.Failed? && fields.email.Some? && IsEmailConflict(reply.code) && rest != NOTHING {
        CallGoesWrong(f, s1, UpdateUser(u, rest), u);
        WrongTransitive(s.log, s1.log, Send(f, s1, UpdateUser(u, rest)).0.log, u);
      }
    }
  }

  lemma {:induction false} SweepGoesWrong(f: Faults, s: Session, u: UserId, tokens: seq<Token>, keep: Option<Token>)
    ensures var r := Sweep(f, s, u, tokens, keep);
      s.log <= r.s.log && (r.out.Raised? <==> WrongSince(s.log, r.s.log, u))
    decreases |tokens|
  {
    if tokens != [] {
      if Some(tokens[0]) == keep {
        SweepGoesWrong(f, s, u, tokens[1..], keep);
      } else {
        var step := Call(f, s, DeleteCard(u, tokens[0]));
        CallGoesWrong(f, s, DeleteCard(u, tokens[0]), u);
        if step.out.Fine? {
          SweepGoesWrong(f, step.s, u, tokens[1..], keep);
          WrongTransitive(s.log, step.s.log, Sweep(f, step.s, u, tokens[1..], keep).s.log, u);
        }
      }
    }
  }

  // ---- one credential entry ----

  /** The entry brings a card. */
  predicate Brings(p: Pair) {
    p.member.card != p.user.card && p.member.card.Some?
  }

  /** An entry that brings no card raises exactly when one of its requests failed, email conflicts aside. */
  lemma PlainCredentialStep(f: Faults, s: Session, p: Pair, u: UserId)
    requires p.member.name != "" && p.member.contact in s.cache.userIds && s.cache.userIds[p.member.contact] == u
    requires u in s.ctl.users && !Brings(p)
    ensures var s' := RunTask(f, s, Credential(p));
      s'.failures != s.failures <==> WrongSince(s.log, s'.log, u)
  {
    var fields := CredentialFields(p.member, p.user);
    var written := WriteRecord(f, s, u, fields);
    WriteGoesWrong(f, s, u, fields);
    UpdateCredentialEffect(f, s, s.cache.userIds, p);
    if written.out.Fine? && p.member.card != p.user.card {
      var tokens := CachedCards(written.s.cache, p.member.contact);
      SweepGoesWrong(f, written.s, u, tokens, None);
      WrongTransitive(s.log, written.s.log, Sweep(f, written.s, u, tokens, None).s.log, u);
    }
  }

  /** The first request of a credential entry, if it has any: the write, else a delete, else the bind. */
  function FirstRequest(p: Pair, u: UserId, cached: seq<Token>, wanted: Option<Token>): Option<Request>
    requires p.member.name != ""
  {
    var fields := CredentialFields(p.member, p.user);
    if fields != NOTHING then Some(UpdateUser(u, fields))
    else if p.member.card == p.user.card then None
    else if cached != [] then Some(DeleteCard(u, cached[0]))
    else if wanted.Some? then Some(BindCard(u, wanted.value, false))
    else None
  }

  lemma CredentialOpensWith(f: Faults, s: Session, p: Pair, u: UserId)
    requires p.member.name != "" && p.member.contact in s.cache.userIds && s.cache.userIds[p.member.contact] == u
    requires u in s.ctl.users
    ensures var tokens, wanted := CachedCards(s.cache, p.member.contact), WantedToken(s.cache, p.member.card);
      var first := FirstRequest(p, u, tokens, wanted);
      first.Some? ==> SentSince(s.log, RunTask(f, s, Credential(p)).log, first.value)
  {
    var fields := CredentialFields(p.member, p.user);
    var tokens := CachedCards(s.cache, p.member.contact);
    if fields != NOTHING {
      CredentialWriteStep(f, s, p, u);
    } else if p.member.card != p.user.card {
      if tokens != [] {
        SweepOpensWith(f, s, u, tokens);
        var swept := Sweep(f, s, u, tokens, None).s;
        AttachSends(f, swept, u, p.member.card);
        SentStays(s.log, swept.log, RunTask(f, s, Credential(p)).log, DeleteCard(u, tokens[0]));
      } else {
        AttachSends(f, s, u, p.member.card);
      }
    }
  }

  lemma SweepOpensWith(f: Faults, s: Session, u: UserId, tokens: seq<Token>)
    requires tokens != []
    ensures SentSince(s.log, Sweep(f, s, u, tokens, None).s.log, DeleteCard(u, tokens[0]))
  {
    var step := Call(f, s, DeleteCard(u, tokens[0]));
    SweepSends(f, step.s, u, tokens[1..], None);
    assert step.s.log[|s.log|].request == DeleteCard(u, tokens[0]);
    assert Sweep(f, s, u, tokens, None).s.log[|s.log|] == step.s.log[|s.log|];
  }

  // ---- the cached list waits for the entry ----

  /** No holder entry calls the account of contact `k` disabled. */
  ghost predicate NeverOff(holders: map<Token, Holder>, k: ContactId) {
    forall t :: t in holders && holders[t].employee == Some(k) ==> !IsDisabled(holders[t].status)
  }

  ghost predicate ListKept(s: Session, s': Session, k: ContactId) {
    && CachedCards(s'.cache, k) == CachedCards(s.cache, k)
    && (NeverOff(s.cache.holders, k) ==> NeverOff(s'.cache.holders, k))
  }

  /** Only a reclaim shortens a cached list, and only that of an account cached as disabled. */
  lemma BindKeepsList(f: Faults, s: Session, u: UserId, t: Token, k: ContactId)
    requires NeverOff(s.cache.holders, k)
    ensures ListKept(s, Bind(f, s, u, t).s, k)
  {
  }

  lemma AttachKeepsList(f: Faults, s: Session, u: UserId, card: Option<CardId>, k: ContactId)
    requires NeverOff(s.cache.holders, k)
    ensures ListKept(s, AttachCard(f, s, u, card).s, k)
  {
    if WantedToken(s.cache, card).Some? {
      BindKeepsList(f, s, u, WantedToken(s.cache, card).value, k);
    }
  }

  lemma CredentialKeepsList(f: Faults, s: Session, p: Pair, u: UserId, k: ContactId)
    requires p.member.name != "" && NeverOff(s.cache.holders, k)
    ensures ListKept(s, UpdateCredential(f, s, p, u).s, k)
  {
    var s1 := WriteRecord(f, s, u, CredentialFields(p.member, p.user)).s;
    assert s1.cache == s.cache;
    SweepEffect(f, s1, u, CachedCards(s1.cache, p.member.contact), None);
    AttachKeepsList(f, Sweep(f, s1, u, CachedCards(s1.cache, p.member.contact), None).s, u, p.member.card, k);
  }

  /** Deactivating another contact marks that contact's cards only. */
  lemma DeactivateKeepsList(f: Faults, s: Session, j: ContactId, u: UserId, k: ContactId)
    requires NeverOff(s.cache.holders, k) && j != k
    requires forall t :: t in s.cache.holders && s.cache.holders[t].user == u ==> s.cache.holders[t].employee == Some(j)
    ensures ListKept(s, DeactivateUser(f, s, j, u).s, k)
  {
    SweepEffect(f, s, u, CachedCards(s.cache, j), None);
  }

  /** Before its own credential entry, an active contact has deactivations and credential entries of others. */
  lemma EarlierKeepsList(x: Run, f: Faults, swept: set<ContactId>, s: Session, t: Task, k: ContactId)
    requires Tidy(x, f, swept, s) && RunOk(x) && NeverOff(s.cache.holders, k) && Named(t)
    requires (t.Deactivate? || t.Credential?) && TaskContact(t) != k && TaskContact(t) in x.cache0.userIds
    ensures ListKept(s, RunTask(f, s, t), k)
  {
    var j := TaskContact(t);
    var u := s.cache.userIds[j];
    match t {
      case Deactivate(_) => DeactivateKeepsList(f, s, j, u, k);
      case Credential(p) => CredentialKeepsList(f, s, p, u, k);
    }
  }

  lemma ListWaitsOn(x: Run, f: Faults, s: Session, ts: seq<Task>, i: nat, k: ContactId)
    requires Underway(x, s, ts) && SweepsDisjoint(ts) && Tidy(x, f, {}, s) && i < |ts|
    requires (ts[i].Deactivate? || ts[i].Credential?)
    requires TaskContact(ts[i]) != k && TaskContact(ts[i]) in x.cache0.userIds
    requires NeverOff(At(f, s, ts, i).cache.holders, k)
    ensures ListKept(At(f, s, ts, i), At(f, s, ts, i + 1), k)
  {
    RunTasksKeepsTidy(x, f, s, ts[..i]);
    AtNext(f, s, ts, i);
    EarlierKeepsList(x, f, SweptBy(ts[..i]), At(f, s, ts, i), ts[i], k);
  }

  lemma {:induction false} ListWaits(x: Run, f: Faults, s: Session, ts: seq<Task>, n: nat, k: ContactId)
    requires Underway(x, s, ts) && SweepsDisjoint(ts) && Tidy(x, f, {}, s) && NeverOff(s.cache.holders, k) && n <= |ts|
    requires forall i :: 0 <= i < n ==> (ts[i].Deactivate? || ts[i].Credential?) && TaskContact(ts[i]) != k
    requires forall i :: 0 <= i < n ==> TaskContact(ts[i]) in x.cache0.userIds
    ensures CachedCards(At(f, s, ts, n).cache, k) == CachedCards(s.cache, k)
    ensures NeverOff(At(f, s, ts, n).cache.holders, k)
  {
    if n == 0 {
      assert ts[..0] == [];
    } else {
      ListWaits(x, f, s, ts, n - 1, k);
      ListWaitsOn(x, f, s, ts, n - 1, k);
    }
  }

  // ---- a whole run ----

  /** The wrong requests of a run about the user come from its credential entry. */
  lemma {:induction false} OnlyWrongIn(x: Run, f: Faults, s: Session, ts: seq<Task>, i: nat, n: nat, u: UserId)
    requires Underway(x, s, ts) && i < |ts| && n <= |ts|
    requires forall j :: 0 <= j < |ts| && j != i ==> !WrongSince(At(f, s, ts, j).log, At(f, s, ts, j + 1).log, u)
    ensures s.log <= At(f, s, ts, n).log
    ensures WrongSince(s.log, At(f, s, ts, n).log, u) <==>
              i < n && WrongSince(At(f, s, ts, i).log, At(f, s, ts, i + 1).log, u)
  {
    if n > 0 {
      var m := n - 1;
      OnlyWrongIn(x, f, s, ts, i, m, u);
      GoodAt(x, f, s, ts, m);
      AtNext(f, s, ts, m);
      StepGrows(x, f, At(f, s, ts, m), ts[m]);
      WrongTransitive(s.log, At(f, s, ts, m).log, At(f, s, ts, n).log, u);
    }
  }

  lemma OthersNotWrong(x: Run, f: Faults, s: Session, ts: seq<Task>, j: nat, k: ContactId)
    requires Underway(x, s, ts) && j < |ts| && k in x.cache0.userIds
    requires TaskContact(ts[j]) != k || ts[j].Policy?
    ensures !WrongSince(At(f, s, ts, j).log, At(f, s, ts, j + 1).log, x.cache0.userIds[k])
  {
    var u := x.cache0.userIds[k];
    UserAt(x, f, s, ts, j, k);
    AtNext(f, s, ts, j);
    if TaskContact(ts[j]) == k {
      AssignSends(f, At(f, s, ts, j), u, ts[j].pair.member.policy);
      AssignEffect(f, At(f, s, ts, j), u, ts[j].pair.member.policy);
    } else {
      GoodAt(x, f, s, ts, j);
      TaskLeaves(x, f, At(f, s, ts, j), ts[j], k);
      assert AccountKept(x, k, u, At(f, s, ts, j), At(f, s, ts, j + 1));
    }
  }

  /** A credential entry that brings no card fails exactly when a request of the run about its user did. */
  lemma PlainCredentialFate(x: Run, f: Faults, s: Session, ts: seq<Task>, i: nat)
    requires Underway(x, s, ts) && i < |ts| && OneEntryPerContact(ts) && ts[i].Credential? && !Brings(ts[i].pair)
    requires TaskContact(ts[i]) in x.cache0.userIds
    ensures Fails(f, s, ts, i) <==> WrongSince(s.log, RunTasks(f, s, ts).log, x.cache0.userIds[TaskContact(ts[i])])
  {
    var k := TaskContact(ts[i]);
    var u := x.cache0.userIds[k];
    UserAt(x, f, s, ts, i, k);
    AtNext(f, s, ts, i);
    PlainCredentialStep(f, At(f, s, ts, i), ts[i].pair, u);
    forall j | 0 <= j < |ts| && j != i ensures !WrongSince(At(f, s, ts, j).log, At(f, s, ts, j + 1).log, u) {
      OthersNotWrong(x, f, s, ts, j, k);
    }
    OnlyWrongIn(x, f, s, ts, i, |ts|, u);
    AtEnd(f, s, ts);
  }

  /** The requests that decide a credential entry failed: the bind of the card it brings, else any of its requests. */
  ghost predicate CredentialMissed(log: seq<Event>, log': seq<Event>, u: UserId, e: Pair, wanted: Option<Token>) {
    if Brings(e) then wanted.Some? ==> !BoundSince(log, log', u, wanted.value) else WrongSince(log, log', u)
  }

  ghost predicate PolicyMissed(log: seq<Event>, log': seq<Event>, u: UserId, e: Pair) {
    e.member.policy.Some? && !DoneSince(log, log', SetPolicies(u, [e.member.policy.value]))
  }

  lemma CredentialEntryFate(x: Run, f: Faults, s: Session, ts: seq<Task>, i: nat)
    requires Underway(x, s, ts) && i < |ts| && OneEntryPerContact(ts) && ts[i].Credential?
    requires TaskContact(ts[i]) in x.cache0.userIds
    requires Brings(ts[i].pair) ==> WantedToken(s.cache, ts[i].pair.member.card).Some?
    ensures Fails(f, s, ts, i) <==>
            CredentialMissed(s.log, RunTasks(f, s, ts).log, x.cache0.userIds[TaskContact(ts[i])], ts[i].pair,
                             WantedToken(s.cache, ts[i].pair.member.card))
  {
    if Brings(ts[i].pair) {
      CredentialFate(x, f, s, ts, i, WantedToken(s.cache, ts[i].pair.member.card).value);
    } else {
      PlainCredentialFate(x, f, s, ts, i);
    }
  }

  /** The contact is reported exactly when the deciding requests of one of its entries failed. */
  lemma UpdateFate(x: Run, f: Faults, s: Session, ts: seq<Task>, e: Pair, credential: bool, policy: bool)
    requires Underway(x, s, ts) && s.failures == [] && HasEntries(ts, e, credential, policy)
    requires e.member.contact in x.cache0.userIds && (policy ==> e.member.policy.Some?)
    requires credential && Brings(e) ==> WantedToken(s.cache, e.member.card).Some?
    ensures var s' := RunTasks(f, s, ts); var k, u := e.member.contact, x.cache0.userIds[e.member.contact];
      k in s'.failures <==>
        (credential && CredentialMissed(s.log, s'.log, u, e, WantedToken(s.cache, e.member.card))) ||
        (policy && PolicyMissed(s.log, s'.log, u, e))
  {
    var k, s' := e.member.contact, RunTasks(f, s, ts);
    FailuresAreNamed(x, f, s, ts, |ts|, k);
    AtEnd(f, s, ts);
    forall i | 0 <= i < |ts| && TaskContact(ts[i]) == k
      ensures ts[i] == Credential(e) || ts[i] == Policy(e)
      ensures (ts[i] == Credential(e) ==> credential) && (ts[i] == Policy(e) ==> policy)
      ensures ts[i] == Credential(e) ==>
        (Fails(f, s, ts, i) <==>
         CredentialMissed(s.log, s'.log, x.cache0.userIds[k], e, WantedToken(s.cache, e.member.card)))
      ensures ts[i] == Policy(e) ==> (Fails(f, s, ts, i) <==> PolicyMissed(s.log, s'.log, x.cache0.userIds[k], e))
    {
      assert ts[i] in ts;
      if ts[i].Credential? {
        CredentialEntryFate(x, f, s, ts, i);
      } else {
        PolicyFate(x, f, s, ts, i);
      }
    }
    if credential {
      var i :| 0 <= i < |ts| && ts[i] == Credential(e);
    }
    if policy {
      var i :| 0 <= i < |ts| && ts[i] == Policy(e);
    }
  }

  // ---- an apply ----

  lemma EntriesOfMember(y: Round, e: Pair)
    requires Started(y) && (e in y.d.toUpdateCredential || e in y.d.toUpdatePolicy)
    ensures HasEntries(Tasks(y.d), e, e in y.d.toUpdateCredential, e in y.d.toUpdatePolicy)
    ensures WantsDoor(e.member.contact, WantedIn(y)) && IsActive(e.member.contact, PresentIn(y))
    ensures e.member.contact in y.s.cache.userIds && e.member.policy.Some?
  {
    Reported(y.members, UsersIn(y), y.d);
    ActiveFacts(y, e.member.contact);
    KnownIsShown(y, e.member.contact);
  }

  /**
  A member whose account is on is reported exactly when the bind of the card it is to get was never
  answered well, when it gets no card and a write or delete for its user failed other than for a taken
  email, or when its policy was not set.
  */
  lemma UpdatedMembers(y: Round, p: Session, s': Session, e: Pair)
    requires Ran(y, p, s') && (e in y.d.toUpdateCredential || e in y.d.toUpdatePolicy)
    ensures e.member.contact in y.s.cache.userIds
    ensures e in y.d.toUpdateCredential && Brings(e) ==> WantedToken(p.cache, e.member.card).Some?
    ensures var k, u := e.member.contact, y.s.cache.userIds[e.member.contact];
      k in s'.failures <==>
        (e in y.d.toUpdateCredential && CredentialMissed(p.log, s'.log, u, e, WantedToken(p.cache, e.member.card))) ||
        (e in y.d.toUpdatePolicy && PolicyMissed(p.log, s'.log, u, e))
  {
    EntriesOfMember(y, e);
    if e in y.d.toUpdateCredential && Brings(e) {
      CardEntryHasToken(y, p, s', e);
    }
    UpdateFate(RunOf(p, y.d), y.f, p, Tasks(y.d), e, e in y.d.toUpdateCredential, e in y.d.toUpdatePolicy);
  }

  lemma PolicySentIn(x: Run, f: Faults, s: Session, ts: seq<Task>, e: Pair)
    requires Underway(x, s, ts) && OneEntryPerContact(ts) && Policy(e) in ts
    requires e.member.policy.Some? && e.member.contact in x.cache0.userIds
    ensures SentSince(s.log, RunTasks(f, s, ts).log,
                      SetPolicies(x.cache0.userIds[e.member.contact], [e.member.policy.value]))
  {
    var i :| 0 <= i < |ts| && ts[i] == Policy(e);
    PolicyFate(x, f, s, ts, i);
  }

  /** A policy entry is always asked for. */
  lemma PolicyAttempted(y: Round, p: Session, s': Session, e: Pair)
    requires Ran(y, p, s') && e in y.d.toUpdatePolicy
    ensures e.member.contact in y.s.cache.userIds && e.member.policy.Some?
    ensures SentSince(p.log, s'.log, SetPolicies(y.s.cache.userIds[e.member.contact], [e.member.policy.value]))
  {
    EntriesOfMember(y, e);
    PolicySentIn(RunOf(p, y.d), y.f, p, Tasks(y.d), e);
  }

  lemma ActiveIsNeverOff(y: Round, k: ContactId)
    requires Started(y) && IsActive(k, PresentIn(y))
    ensures NeverOff(y.s.cache.holders, k)
  {
    KnownIsShown(y, k);
    FetchAgrees(y.s.cache, y.s.ctl, y.rows, y.cfg.managed);
    ActiveIsNotDisabled();
  }

  lemma EarlyEntries(d: Diff, i: nat)
    requires i < |Tasks(d)| && Tasks(d)[i].Credential?
    ensures forall j :: 0 <= j < i ==> Tasks(d)[j].Deactivate? || Tasks(d)[j].Credential?
  {
  }

  lemma EarlyIsKnown(y: Round, t: Task)
    requires Started(y) && t in Tasks(y.d) && (t.Deactivate? || t.Credential?)
    ensures TaskContact(t) in y.s.cache.userIds
  {
    Reported(y.members, UsersIn(y), y.d);
    EntryPlaces(y.d);
    KnownIsShown(y, TaskContact(t));
  }

  /** Before a credential entry come deactivations and credential entries of other known contacts. */
  lemma BeforeCredential(y: Round, ts: seq<Task>, i: nat)
    requires Started(y) && ts == Tasks(y.d) && i < |ts| && ts[i].Credential? && OneEntryPerContact(ts)
    ensures forall j :: 0 <= j < i ==>
              (ts[j].Deactivate? || ts[j].Credential?) && TaskContact(ts[j]) != TaskContact(ts[i])
    ensures forall j :: 0 <= j < i ==> TaskContact(ts[j]) in y.s.cache.userIds
  {
    EarlyEntries(y.d, i);
    forall j | 0 <= j < i ensures TaskContact(ts[j]) in y.s.cache.userIds {
      assert ts[j] in ts;
      EarlyIsKnown(y, ts[j]);
    }
  }

  lemma CredentialTurnOpens(x: Run, f: Faults, s: Session, ts: seq<Task>, i: nat)
    requires Underway(x, s, ts) && i < |ts| && OneEntryPerContact(ts)
    requires ts[i].Credential? && TaskContact(ts[i]) in x.cache0.userIds
    requires CachedCards(At(f, s, ts, i).cache, TaskContact(ts[i])) == CachedCards(s.cache, TaskContact(ts[i]))
    ensures var e := ts[i].pair; var u := x.cache0.userIds[e.member.contact];
      var first := FirstRequest(e, u, CachedCards(s.cache, e.member.contact), WantedToken(s.cache, e.member.card));
      first.Some? ==> SentSince(s.log, RunTasks(f, s, ts).log, first.value)
  {
    var e := ts[i].pair;
    var u := x.cache0.userIds[e.member.contact];
    UserAt(x, f, s, ts, i, e.member.contact);
    GoodAt(x, f, s, ts, i);
    AtNext(f, s, ts, i);
    CredentialOpensWith(f, At(f, s, ts, i), e, u);
    var first := FirstRequest(e, u, CachedCards(s.cache, e.member.contact), WantedToken(s.cache, e.member.card));
    if first.Some? {
      OnlyCredentialSends(x, f, s, ts, i, first.value);
    }
    AtEnd(f, s, ts);
  }

  lemma AttemptedIn(x: Run, f: Faults, s: Session, ts: seq<Task>, i: nat)
    requires Underway(x, s, ts) && SweepsDisjoint(ts) && Tidy(x, f, {}, s) && OneEntryPerContact(ts)
    requires i < |ts| && ts[i].Credential? && TaskContact(ts[i]) in x.cache0.userIds
    requires NeverOff(s.cache.holders, TaskContact(ts[i]))
    requires forall j :: 0 <= j < i ==>
              (ts[j].Deactivate? || ts[j].Credential?) && TaskContact(ts[j]) != TaskContact(ts[i])
    requires forall j :: 0 <= j < i ==> TaskContact(ts[j]) in x.cache0.userIds
    ensures var e := ts[i].pair; var u := x.cache0.userIds[e.member.contact];
      var first := FirstRequest(e, u, CachedCards(s.cache, e.member.contact), WantedToken(s.cache, e.member.card));
      first.Some? ==> SentSince(s.log, RunTasks(f, s, ts).log, first.value)
  {
    ListWaits(x, f, s, ts, i, TaskContact(ts[i]));
    CredentialTurnOpens(x, f, s, ts, i);
  }

  lemma CredentialIndex(y: Round, e: Pair) returns (i: nat)
    requires Started(y) && e in y.d.toUpdateCredential
    ensures i < |Tasks(y.d)| && Tasks(y.d)[i] == Credential(e) && NeverOff(y.s.cache.holders, e.member.contact)
  {
    EntriesOfMember(y, e);
    ActiveIsNeverOff(y, e.member.contact);
    i :| 0 <= i < |Tasks(y.d)| && Tasks(y.d)[i] == Credential(e);
  }

  /**
  A credential entry is always attempted, whatever happens to others: with the write if name or email
  change, else with the first delete of a cached card, else with the bind of the wanted one.
  */
  lemma CredentialAttempted(y: Round, p: Session, s': Session, e: Pair)
    requires Ran(y, p, s') && e in y.d.toUpdateCredential
    ensures e.member.contact in y.s.cache.userIds && e.member.name != ""
    ensures var k, u := e.member.contact, y.s.cache.userIds[e.member.contact];
      var first := FirstRequest(e, u, CachedCards(y.s.cache, k), WantedToken(p.cache, e.member.card));
      first.Some? ==> SentSince(p.log, s'.log, first.value)
  {
    var i := CredentialIndex(y, e);
    EntriesOfMember(y, e);
    BeforeCredential(y, Tasks(y.d), i);
    AttemptedIn(RunOf(p, y.d), y.f, p, Tasks(y.d), i);
  }

  /** An entry has nothing to send only when its card is all that changes, none is cached and none is wanted. */
  lemma NothingToSend(e: Pair, u: UserId, cached: seq<Token>, wanted: Option<Token>)
    requires e.member.name != "" && CredentialDiffers(e.member, e.user) && (e.member.card.Some? <==> wanted.Some?)
    ensures FirstRequest(e, u, cached, wanted).None? <==>
            CredentialFields(e.member, e.user) == NOTHING && cached == [] && e.member.card.None?
  {
  }

  // ---- the whole failure list ----

  /** The request that decides a departure, or an addition, was not answered well. */
  ghost predicate DepartureMissed(y: Round, p: Session, s': Session, k: ContactId) {
    && (exists e :: e in y.d.toDeactivate && e.contact == k)
    && (k in y.s.cache.userIds ==> !DoneSince(p.log, s'.log, SetStatus(y.s.cache.userIds[k], DEACTIVATED)))
  }

  ghost predicate AdditionMissed(y: Round, p: Session, s': Session, r: ResolvedMember) {
    if r.contact in y.s.cache.userIds then !DoneSince(p.log, s'.log, SetStatus(y.s.cache.userIds[r.contact], ACTIVE))
    else r.contact in s'.cache.userIds && r.policy.Some? ==>
      !DoneSince(p.log, s'.log, SetPolicies(s'.cache.userIds[r.contact], [r.policy.value]))
  }

  ghost predicate UpdateMissed(y: Round, p: Session, s': Session, e: Pair) {
    e.member.contact in y.s.cache.userIds &&
    var u := y.s.cache.userIds[e.member.contact];
    || (e in y.d.toUpdateCredential && CredentialMissed(p.log, s'.log, u, e, WantedToken(p.cache, e.member.card)))
    || (e in y.d.toUpdatePolicy && PolicyMissed(p.log, s'.log, u, e))
  }

  /** A request that decides an entry of contact `k` was not answered well. */
  ghost predicate Missed(y: Round, p: Session, s': Session, k: ContactId) {
    || DepartureMissed(y, p, s', k)
    || (exists r :: r in y.d.toAdd && r.contact == k && AdditionMissed(y, p, s', r))
    || (exists e :: (e in y.d.toUpdateCredential || e in y.d.toUpdatePolicy) && e.member.contact == k &&
                    UpdateMissed(y, p, s', e))
  }

  /** A departing contact is in no other bucket. */
  lemma OnlyDeparts(y: Round, e: UnifiUser)
    requires Started(y) && e in y.d.toDeactivate
    ensures e.contact in y.s.cache.userIds
    ensures forall r :: r in y.d.toAdd ==> r.contact != e.contact
    ensures forall p :: p in y.d.toUpdateCredential || p in y.d.toUpdatePolicy ==> p.member.contact != e.contact
  {
    Reported(y.members, UsersIn(y), y.d);
    KnownIsShown(y, e.contact);
  }

  lemma MissedIsDepartureMissed(y: Round, p: Session, s': Session, k: ContactId)
    requires forall r :: r in y.d.toAdd ==> r.contact != k
    requires forall p :: p in y.d.toUpdateCredential || p in y.d.toUpdatePolicy ==> p.member.contact != k
    ensures Missed(y, p, s', k) <==> DepartureMissed(y, p, s', k)
  {
  }

  lemma DepartedReport(y: Round, p: Session, s': Session, e: UnifiUser)
    requires Ran(y, p, s') && e in y.d.toDeactivate
    ensures e.contact in s'.failures <==> Missed(y, p, s', e.contact)
  {
    OnlyDeparts(y, e);
    MissedIsDepartureMissed(y, p, s', e.contact);
    DepartedMembers(y, p, s', e);
  }

  /** An added contact is in no other bucket, and once in this one. */
  lemma OnlyAdded(y: Round, r: ResolvedMember)
    requires Started(y) && r in y.d.toAdd
    ensures r.name != "" && r.policy.Some?
    ensures forall u :: u in y.d.toDeactivate ==> u.contact != r.contact
    ensures forall r' :: r' in y.d.toAdd && r'.contact == r.contact ==> r' == r
    ensures forall p :: p in y.d.toUpdateCredential || p in y.d.toUpdatePolicy ==> p.member.contact != r.contact
  {
    Reported(y.members, UsersIn(y), y.d);
    AdditionFacts(y, r.contact);
  }

  lemma MissedIsAdditionMissed(y: Round, p: Session, s': Session, r: ResolvedMember)
    requires r in y.d.toAdd && forall r' :: r' in y.d.toAdd && r'.contact == r.contact ==> r' == r
    requires forall u :: u in y.d.toDeactivate ==> u.contact != r.contact
    requires forall p :: p in y.d.toUpdateCredential || p in y.d.toUpdatePolicy ==> p.member.contact != r.contact
    ensures Missed(y, p, s', r.contact) <==> AdditionMissed(y, p, s', r)
  {
  }

  lemma AddedReport(y: Round, p: Session, s': Session, r: ResolvedMember)
    requires Ran(y, p, s') && r in y.d.toAdd
    ensures r.contact in s'.failures <==> Missed(y, p, s', r.contact)
  {
    OnlyAdded(y, r);
    MissedIsAdditionMissed(y, p, s', r);
    if r.contact in y.s.cache.userIds {
      ReturningMembers(y, p, s', r);
    } else {
      NewMembers(y, p, s', r);
    }
  }

  /** A member whose account is on is in no other bucket, and in these two with the same pair. */
  lemma OnlyUpdated(y: Round, e: Pair)
    requires Started(y) && (e in y.d.toUpdateCredential || e in y.d.toUpdatePolicy)
    ensures forall u :: u in y.d.toDeactivate ==> u.contact != e.member.contact
    ensures forall r :: r in y.d.toAdd ==> r.contact != e.member.contact
    ensures forall e' :: e' in y.d.toUpdateCredential || e' in y.d.toUpdatePolicy ==>
              (e'.member.contact == e.member.contact ==> e' == e)
  {
    Reported(y.members, UsersIn(y), y.d);
  }

  lemma MissedIsUpdateMissed(y: Round, p: Session, s': Session, e: Pair)
    requires e in y.d.toUpdateCredential || e in y.d.toUpdatePolicy
    requires forall u :: u in y.d.toDeactivate ==> u.contact != e.member.contact
    requires forall r :: r in y.d.toAdd ==> r.contact != e.member.contact
    requires forall e' :: e' in y.d.toUpdateCredential || e' in y.d.toUpdatePolicy ==>
              (e'.member.contact == e.member.contact ==> e' == e)
    ensures Missed(y, p, s', e.member.contact) <==> UpdateMissed(y, p, s', e)
  {
  }

  lemma UpdatedReport(y: Round, p: Session, s': Session, e: Pair)
    requires Ran(y, p, s') && (e in y.d.toUpdateCredential || e in y.d.toUpdatePolicy)
    ensures e.member.contact in s'.failures <==> Missed(y, p, s', e.member.contact)
  {
    OnlyUpdated(y, e);
    MissedIsUpdateMissed(y, p, s', e);
    UpdatedMembers(y, p, s', e);
  }

  lemma EntryReport(y: Round, p: Session, s': Session, t: Task)
    requires Ran(y, p, s')
    requires match t
      case Deactivate(e) => e in y.d.toDeactivate
      case Credential(e) => e in y.d.toUpdateCredential
      case Policy(e) => e in y.d.toUpdatePolicy
      case Add(r) => r in y.d.toAdd
    ensures TaskContact(t) in s'.failures <==> Missed(y, p, s', TaskContact(t))
  {
    match t {
      case Deactivate(e) => DepartedReport(y, p, s', e);
      case Credential(e) => UpdatedReport(y, p, s', e);
      case Policy(e) => UpdatedReport(y, p, s', e);
      case Add(r) => AddedReport(y, p, s', r);
    }
  }

  lemma NoEntryReport(y: Round, p: Session, s': Session, k: ContactId)
    requires Ran(y, p, s') && forall t :: t in Tasks(y.d) ==> TaskContact(t) != k
    ensures k !in s'.failures && !Missed(y, p, s', k)
  {
    BystandersAreSpared(y, p, s', k);
    NobodyMissed(y, p, s', k);
  }

  /** The failure list names exactly the contacts for which a deciding request was not answered well. */
  lemma FailureListIsExact(y: Round, p: Session, s': Session, k: ContactId)
    requires Ran(y, p, s')
    ensures k in s'.failures <==> Missed(y, p, s', k)
  {
    EntryPlaces(y.d);
    if t :| t in Tasks(y.d) && TaskContact(t) == k {
      EntryReport(y, p, s', t);
    } else {
      NoEntryReport(y, p, s', k);
    }
  }

  lemma NobodyMissed(y: Round, p: Session, s': Session, k: ContactId)
    requires forall t :: t in Tasks(y.d) ==> TaskContact(t) != k
    ensures !Missed(y, p, s', k)
  {
    EntryPlaces(y.d);
  }
}
