/**
Whose email is stuck: without request failures, exactly the members whose email is registered to another
account, a user's or an administrator's, when their turn comes.
*/
module Emails {
  import opened Models
  import opened Controller
  import opened Protocol
  import opened Reconciler
  import opened CardIndex
  import opened Effects
  import opened ForceBind
  import opened Frame
  import opened Cycle
  import opened Isolation
  import opened Doubles
  import opened Refinement

  // ---- one write ----

  lemma UpdateDecides(f: Faults, s: Session, ids: map<ContactId, UserId>, k: ContactId, fields: Fields)
    requires NoFaults(f) && k in ids && ids[k] in s.ctl.users && !EmailRefused(s.log, ids, k)
    ensures EmailRefused(WriteRecord(f, s, ids[k], fields).s.log, ids, k) <==>
            fields.email.Some? && EmailTaken(s.ctl, Some(ids[k]), fields.email.value)
  {
    if fields.email.Some? {
      RefusedExactlyWhenTaken(f, s, ids, k, fields);
    } else if fields != NOTHING {
      UpdateEffect(f, s, ids, k, fields);
    }
  }

  lemma CreateDecides(f: Faults, s: Session, ids: map<ContactId, UserId>, k: ContactId, fields: Fields)
    requires NoFaults(f) && fields.employee == Some(k) && !EmailRefused(s.log, ids, k)
    ensures EmailRefused(WriteUser(f, s, None, fields).0.log, ids, k) <==>
            fields.email.Some? && EmailTaken(s.ctl, None, fields.email.value)
  {
    ConflictCode();
    var (s1, reply) := Send(f, s, CreateUser(fields));
    LastRefusal(s.log, Event(CreateUser(fields), s.ctl, reply), ids, k);
    var rest := fields.(email := None);
    if Conflicts(reply, fields) {
      var (s2, reply2) := Send(f, s1, CreateUser(rest));
      LastRefusal(s1.log, Event(CreateUser(rest), s1.ctl, reply2), ids, k);
    }
  }

  // ---- one entry ----

  /** The email the entry writes belongs to another account now. */
  predicate TakenNow(s: Session, t: Task)
    requires Named(t)
  {
    var k := TaskContact(t);
    match t
    case Credential(p) =>
      var email := CredentialFields(p.member, p.user).email;
      k in s.cache.userIds && email.Some? && EmailTaken(s.ctl, Some(s.cache.userIds[k]), email.value)
    case Add(r) =>
      if k in s.cache.userIds then EmailTaken(s.ctl, Some(s.cache.userIds[k]), EmailText(r.email))
      else r.email.Some? && EmailTaken(s.ctl, None, r.email.value)
    case _ => false
  }

  lemma QuietKeepsRefusal(log: seq<Event>, log': seq<Event>, ids: map<ContactId, UserId>, k: ContactId)
    requires NoRecordWrites(log, log')
    ensures EmailRefused(log', ids, k) <==> EmailRefused(log, ids, k)
  {
    RefusalStays(log, log', ids, k);
  }

  lemma CredentialDecides(f: Faults, s: Session, ids: map<ContactId, UserId>, p: Pair)
    requires NoFaults(f) && p.member.name != "" && p.member.contact in ids && ids[p.member.contact] in s.ctl.users
    requires p.member.contact in s.cache.userIds && s.cache.userIds[p.member.contact] == ids[p.member.contact]
    requires !EmailRefused(s.log, ids, p.member.contact)
    ensures EmailRefused(RunTask(f, s, Credential(p)).log, ids, p.member.contact) <==> TakenNow(s, Credential(p))
  {
    var k, u := p.member.contact, ids[p.member.contact];
    var fields := CredentialFields(p.member, p.user);
    UpdateDecides(f, s, ids, k, fields);
    var s1 := WriteRecord(f, s, u, fields).s;
    var tokens := CachedCards(s1.cache, k);
    SweepEffect(f, s1, u, tokens, None);
    var s2 := Sweep(f, s1, u, tokens, None).s;
    QuietKeepsRefusal(s1.log, s2.log, ids, k);
    AttachEffect(f, s2, u, p.member.card);
    QuietKeepsRefusal(s2.log, AttachCard(f, s2, u, p.member.card).s.log, ids, k);
  }

  /** A reactivation is a write of the record, and then steps that write none. */
  lemma WriteThenQuiet(f: Faults, s: Session, r: ResolvedMember, u: UserId)
    requires r.name != "" && r.contact in s.cache.userIds && s.cache.userIds[r.contact] == u && u in s.ctl.users
    requires u in WriteRecord(f, s, u, ReactivationFields(r)).s.ctl.users
    ensures NoRecordWrites(WriteRecord(f, s, u, ReactivationFields(r)).s.log, RunTask(f, s, Add(r)).log)
  {
    var s1 := WriteRecord(f, s, u, ReactivationFields(r)).s;
    var tokens, keep := CachedCards(s1.cache, r.contact), WantedToken(s1.cache, r.card);
    SweepEffect(f, s1, u, tokens, keep);
    var s2 := Sweep(f, s1, u, tokens, keep).s;
    SwitchOnEffect(f, s2, r, u);
    QuietTransitive(s1.log, s2.log, SwitchOn(f, s2, r, u).s.log);
    ReactivateUnfolds(f, s, r, u);
  }

  lemma ReactivationDecides(f: Faults, s: Session, ids: map<ContactId, UserId>, r: ResolvedMember)
    requires NoFaults(f) && r.name != "" && r.contact in ids && ids[r.contact] in s.ctl.users
    requires r.contact in s.cache.userIds && s.cache.userIds[r.contact] == ids[r.contact]
    requires !EmailRefused(s.log, ids, r.contact)
    ensures EmailRefused(RunTask(f, s, Add(r)).log, ids, r.contact) <==> TakenNow(s, Add(r))
  {
    var k, u := r.contact, ids[r.contact];
    UpdateDecides(f, s, ids, k, ReactivationFields(r));
    WriteRecordEffect(f, s, ids, k, ReactivationFields(r));
    WriteThenQuiet(f, s, r, u);
    QuietKeepsRefusal(WriteRecord(f, s, u, ReactivationFields(r)).s.log, RunTask(f, s, Add(r)).log, ids, k);
  }

  lemma CreationDecides(x: Run, f: Faults, s: Session, r: ResolvedMember)
    requires RunOk(x) && Good(x, s) && r in x.writers && r.name != "" && r.contact !in s.cache.userIds && NoFaults(f)
    requires !EmailRefused(s.log, x.cache0.userIds, r.contact)
    ensures EmailRefused(RunTask(f, s, Add(r)).log, x.cache0.userIds, r.contact) <==> TakenNow(s, Add(r))
  {
    var k, ids := r.contact, x.cache0.userIds;
    CreateDecides(f, s, ids, k, CreationFields(r));
    CreateUnfolds(f, s, r);
    CreateWriteEffect(f, s, ids, k, CreationFields(r));
    var (s1, reply) := WriteUser(f, s, None, CreationFields(r));
    if reply.Created? {
      EquipEffect(f, Registered(s1, k, reply.user), r, reply.user);
      QuietKeepsRefusal(s1.log, Equip(f, Registered(s1, k, reply.user), r, reply.user).s.log, ids, k);
    }
  }

  // ---- a whole run ----

  /** The entry of a contact that writes its email. */
  predicate WritesEmail(t: Task) {
    t.Credential? || t.Add?
  }

  lemma TaskDecides(x: Run, f: Faults, s: Session, t: Task)
    requires RunOk(x) && Good(x, s) && Named(t) && TaskInRun(x, t) && NoFaults(f) && WritesEmail(t)
    requires TaskContact(t) in s.cache.userIds <==> TaskContact(t) in x.cache0.userIds
    requires !EmailRefused(s.log, x.cache0.userIds, TaskContact(t))
    ensures t.Credential? && TaskContact(t) !in x.cache0.userIds ==> RunTask(f, s, t) == s
    ensures EmailRefused(RunTask(f, s, t).log, x.cache0.userIds, TaskContact(t)) <==> TakenNow(s, t)
  {
    if TaskContact(t) in x.cache0.userIds {
      match t {
        case Credential(p) => CredentialDecides(f, s, x.cache0.userIds, p);
        case Add(r) => ReactivationDecides(f, s, x.cache0.userIds, r);
      }
    } else if t.Add? {
      CreationDecides(x, f, s, t.member);
    }
  }

  /** Other entries leave the refusal of contact `k` as it is, and so does its own policy entry. */
  lemma {:induction false} RefusalFixed(x: Run, f: Faults, s: Session, ts: seq<Task>, m: nat, n: nat, k: ContactId)
    requires Underway(x, s, ts) && m <= n <= |ts|
    requires forall i :: m <= i < n && TaskContact(ts[i]) == k ==> ts[i].Policy?
    ensures EmailRefused(At(f, s, ts, n).log, x.cache0.userIds, k) <==>
              EmailRefused(At(f, s, ts, m).log, x.cache0.userIds, k)
  {
    if m < n {
      RefusalFixed(x, f, s, ts, m, n - 1, k);
      RefusalFixedAt(x, f, s, ts, n - 1, k);
    }
  }

  lemma RefusalFixedAt(x: Run, f: Faults, s: Session, ts: seq<Task>, i: nat, k: ContactId)
    requires Underway(x, s, ts) && i < |ts| && (TaskContact(ts[i]) == k ==> ts[i].Policy?)
    ensures EmailRefused(At(f, s, ts, i + 1).log, x.cache0.userIds, k) <==>
              EmailRefused(At(f, s, ts, i).log, x.cache0.userIds, k)
  {
    var si := At(f, s, ts, i);
    GoodAt(x, f, s, ts, i);
    AtNext(f, s, ts, i);
    if TaskContact(ts[i]) != k {
      TaskLeaves(x, f, si, ts[i], k);
    } else if k in si.cache.userIds {
      AssignEffect(f, si, si.cache.userIds[k], ts[i].pair.member.policy);
      QuietKeepsRefusal(si.log, At(f, s, ts, i + 1).log, x.cache0.userIds, k);
    }
  }

  lemma EmailFate(x: Run, f: Faults, s: Session, ts: seq<Task>, i: nat)
    requires Underway(x, s, ts) && OneEntryPerContact(ts) && NoFaults(f) && i < |ts| && WritesEmail(ts[i])
    requires !EmailRefused(s.log, x.cache0.userIds, TaskContact(ts[i]))
    ensures EmailRefused(RunTasks(f, s, ts).log, x.cache0.userIds, TaskContact(ts[i])) <==>
              TakenNow(At(f, s, ts, i), ts[i])
  {
    var k := TaskContact(ts[i]);
    assert ts[..0] == [];
    Between(x, f, s, ts, 0, i, k);
    RefusalFixed(x, f, s, ts, i + 1, |ts|, k);
    GoodAt(x, f, s, ts, i);
    AtNext(f, s, ts, i);
    TaskDecides(x, f, At(f, s, ts, i), ts[i]);
    AtEnd(f, s, ts);
  }

  /** Without an entry that writes its email, nothing of a contact is refused. */
  lemma NoEmailFate(x: Run, f: Faults, s: Session, ts: seq<Task>, k: ContactId)
    requires Underway(x, s, ts) && !EmailRefused(s.log, x.cache0.userIds, k)
    requires forall t :: t in ts && TaskContact(t) == k ==> t.Policy?
    ensures !EmailRefused(RunTasks(f, s, ts).log, x.cache0.userIds, k)
  {
    assert ts[..0] == [];
    RefusalFixed(x, f, s, ts, 0, |ts|, k);
    AtEnd(f, s, ts);
  }

  /** The email of member `k` belongs to another account when the member's turn comes. */
  ghost predicate TakenAtTurn(y: Round, p: Session, k: ContactId)
    requires AllNamed(Tasks(y.d))
  {
    exists i :: 0 <= i < |Tasks(y.d)| && WritesEmail(Tasks(y.d)[i]) && TaskContact(Tasks(y.d)[i]) == k &&
                TakenNow(At(y.f, p, Tasks(y.d), i), Tasks(y.d)[i])
  }

  /**
  The email half of what stays different, without the log: when no request fails, the email of a member is
  stuck exactly when it differs and belongs to another account at the member's turn.
  */
  lemma StuckExactlyWhenTaken(y: Round, p: Session, s': Session, k: ContactId)
    requires Ran(y, p, s') && NoFaults(y.f) && WantsDoor(k, WantedIn(y))
    ensures EmailRefused(s'.log, y.s.cache.userIds, k) <==> TakenAtTurn(y, p, k)
    ensures EmailStuck(k, WantedIn(y), PresentIn(y), s'.log, y.s.cache.userIds) <==>
            TakenAtTurn(y, p, k) && EmailDiffers(WantedIn(y)[k].email, EmailSeen(k, PresentIn(y)))
  {
    var x, ts := RunOf(p, y.d), Tasks(y.d);
    NotRefusedYet(y, p, k);
    forall i | 0 <= i < |ts| && WritesEmail(ts[i]) && TaskContact(ts[i]) == k
      ensures EmailRefused(s'.log, y.s.cache.userIds, k) <==> TakenNow(At(y.f, p, ts, i), ts[i])
    {
      EmailFate(x, y.f, p, ts, i);
    }
    OneWriterEntry(y, k);
    if forall i :: 0 <= i < |ts| && TaskContact(ts[i]) == k ==> !WritesEmail(ts[i]) {
      NoEmailFate(x, y.f, p, ts, k);
    }
  }

  /** Fetching and importing write no email. */
  lemma NotRefusedYet(y: Round, p: Session, k: ContactId)
    requires ReadsOnly(y.s.log) && OnlyIndexed(y.s.(failures := []), p)
    ensures !EmailRefused(p.log, y.s.cache.userIds, k)
  {
    forall i | 0 <= i < |p.log| ensures !EmailWriteFor(p.log[i].request, y.s.cache.userIds, k) {
      assert i < |y.s.log| ==> p.log[i] == y.s.log[i];
    }
  }

  /** A member with access has no deactivation. */
  lemma OneWriterEntry(y: Round, k: ContactId)
    requires Started(y) && WantsDoor(k, WantedIn(y))
    ensures forall t :: t in Tasks(y.d) && TaskContact(t) == k ==> WritesEmail(t) || t.Policy?
  {
    Reported(y.members, UsersIn(y), y.d);
    EntryPlaces(y.d);
  }

  /** What stays different of member `k`, told without the log. */
  ghost predicate Stays(y: Round, p: Session, k: ContactId)
    requires AllNamed(Tasks(y.d))
  {
    var wanted, present := WantedIn(y), PresentIn(y);
    WantsDoor(k, wanted) &&
    (NameStuck(k, wanted, present) || (TakenAtTurn(y, p, k) && EmailDiffers(wanted[k].email, EmailSeen(k, present))))
  }

  /**
  The fixed point without request failures: after an apply that raises nothing, the next difference holds
  exactly the members whose written name does not survive and those whose differing email belonged to
  another account at their turn.
  */
  lemma FaultlessFixedPoint(y: Round, rows': seq<UserRow>, d': Diff)
    requires Started(y) && NoFaults(y.f) && Applied(y).out.Fine? && MembersOk(y.members, y.cfg.managed)
    requires Lists(rows', Applied(y).s.ctl, y.cfg.managed)
    requires IsDiff(y.members, Fetched(rows', Applied(y).s.ctl, y.cfg.managed), d')
    ensures AllNamed(Tasks(y.d)) && OnlyResidue(d', iset k | Stays(y, RunStart(y).s, k))
  {
    AppliedIsRun(y);
    UniqueExactlyWhenOpenedOnce(y);
    ApplyReachesFixedPoint(y, rows', d');
    ResidueIsStays(y, RunStart(y).s, Applied(y).s);
  }

  lemma ResidueIsStays(y: Round, p: Session, s': Session)
    requires Ran(y, p, s') && NoFaults(y.f)
    ensures (iset k | Stays(y, p, k)) == iset k | Residual(k, WantedIn(y), PresentIn(y), s'.log, y.s.cache.userIds)
  {
    forall k ensures Stays(y, p, k) <==> Residual(k, WantedIn(y), PresentIn(y), s'.log, y.s.cache.userIds) {
      if WantsDoor(k, WantedIn(y)) {
        StuckExactlyWhenTaken(y, p, s', k);
      }
    }
  }
}
