/**
The account each entry leaves behind when it goes through, seen at the end of the whole run.
*/
module Accounts {
  import opened Models
  import opened Controller
  import opened Protocol
  import opened Effects
  import opened ForceBind
  import opened Frame
  import opened Cycle
  import opened Isolation
  import opened Soundness

  /** The user holds the member's card and nothing else. */
  ghost predicate HoldsExactly(c: State, u: UserId, wanted: Option<Token>) {
    forall t: Token :: Holds(c, u, t) <==> wanted == Some(t)
  }

  /** A card the user was given stays, and none is added, while other entries run. */
  lemma CardStays(x: Run, k: ContactId, u: UserId, s: Session, s': Session, wanted: Option<Token>)
    requires AccountKept(x, k, u, s, s') && HoldsExactly(s.ctl, u, wanted)
    requires wanted.Some? ==> Wants(x, k, wanted.value)
    ensures HoldsExactly(s'.ctl, u, wanted)
  {
  }

  lemma WritersWant(x: Run, r: ResolvedMember)
    requires RunOk(x) && r in x.writers && WantedToken(x.cache0, r.card).Some?
    ensures Wants(x, r.contact, WantedToken(x.cache0, r.card).value)
  {
  }

  // ---- returning members ----

  lemma ReactivatedTurn(x: Run, f: Faults, s: Session, r: ResolvedMember, ids: map<ContactId, UserId>)
    requires RunOk(x) && Good(x, s) && r in x.writers && r.name != ""
    requires r.contact in s.cache.userIds && r.contact in ids && ids[r.contact] == s.cache.userIds[r.contact]
    requires ids[r.contact] in s.ctl.users && !EmailRefused(s.log, ids, r.contact)
    requires RunTask(f, s, Add(r)).failures == s.failures
    ensures var k, u := r.contact, ids[r.contact]; var s' := RunTask(f, s, Add(r));
      && u in s'.ctl.users
      && s'.ctl.users[u] == SwitchedOn(Written(s.ctl.users[u], Kept(ReactivationFields(r), s'.log, ids, k)), r.policy)
      && HoldsExactly(s'.ctl, u, WantedToken(s.cache, r.card))
  {
    ReactivateEffect(f, s, ids, r);
    SweptToIsWanted(x, s, RunTask(f, s, Add(r)), r, ids[r.contact]);
  }

  /** What a known contact brings to its turn: its record, its user, and no refused email. */
  lemma BeforeTurn(x: Run, f: Faults, s: Session, ts: seq<Task>, i: nat, k: ContactId)
    requires Underway(x, s, ts) && i <= |ts| && k in x.cache0.userIds
    requires forall j :: 0 <= j < i ==> TaskContact(ts[j]) != k
    ensures var si := At(f, s, ts, i); var u := x.cache0.userIds[k];
      && IsKnownAs(si, u, k) && AccountKept(x, k, u, s, si)
      && (EmailRefused(si.log, x.cache0.userIds, k) <==> EmailRefused(s.log, x.cache0.userIds, k))
  {
    Between(x, f, s, ts, 0, i, k);
    assert ts[..0] == [];
  }

  /** What follows the contact's last turn. */
  lemma AfterTurn(x: Run, f: Faults, s: Session, ts: seq<Task>, i: nat, k: ContactId)
    requires Underway(x, s, ts) && i <= |ts| && k in x.cache0.userIds
    requires forall j :: i <= j < |ts| ==> TaskContact(ts[j]) != k
    ensures var si, s' := At(f, s, ts, i), RunTasks(f, s, ts); var u := x.cache0.userIds[k];
      && AccountKept(x, k, u, si, s')
      && (EmailRefused(s'.log, x.cache0.userIds, k) <==> EmailRefused(si.log, x.cache0.userIds, k))
  {
    Between(x, f, s, ts, i, |ts|, k);
    UserAt(x, f, s, ts, i, k);
    AtEnd(f, s, ts);
  }

  lemma ReactivatedAt(x: Run, f: Faults, s: Session, ts: seq<Task>, i: nat)
    requires Underway(x, s, ts) && i < |ts| && ts[i].Add? && !Fails(f, s, ts, i)
    requires var k := TaskContact(ts[i]);
      k in x.cache0.userIds && !EmailRefused(At(f, s, ts, i).log, x.cache0.userIds, k)
    ensures var r := ts[i].member; var k := r.contact; var u := x.cache0.userIds[k];
            var si, sj := At(f, s, ts, i), At(f, s, ts, i + 1);
      && u in si.ctl.users && u in sj.ctl.users
      && sj.ctl.users[u] ==
           SwitchedOn(Written(si.ctl.users[u], Kept(ReactivationFields(r), sj.log, x.cache0.userIds, k)), r.policy)
      && HoldsExactly(sj.ctl, u, WantedToken(x.cache0, r.card))
  {
    UserAt(x, f, s, ts, i, TaskContact(ts[i]));
    GoodAt(x, f, s, ts, i);
    AtNext(f, s, ts, i);
    ReactivatedTurn(x, f, At(f, s, ts, i), ts[i].member, x.cache0.userIds);
  }

  lemma ReactivatedAccount(x: Run, f: Faults, s: Session, ts: seq<Task>, i: nat)
    requires Underway(x, s, ts) && i < |ts| && Sole(ts, i) && ts[i].Add? && !Fails(f, s, ts, i)
    requires var k := TaskContact(ts[i]); k in x.cache0.userIds && !EmailRefused(s.log, x.cache0.userIds, k)
    ensures var r := ts[i].member; var k := r.contact; var u := x.cache0.userIds[k]; var s' := RunTasks(f, s, ts);
      && u in s.ctl.users && u in s'.ctl.users
      && s'.ctl.users[u] ==
           SwitchedOn(Written(s.ctl.users[u], Kept(ReactivationFields(r), s'.log, x.cache0.userIds, k)), r.policy)
      && HoldsExactly(s'.ctl, u, WantedToken(x.cache0, r.card))
  {
    var r, k := ts[i].member, TaskContact(ts[i]);
    BeforeTurn(x, f, s, ts, i, k);
    ReactivatedAt(x, f, s, ts, i);
    AfterTurn(x, f, s, ts, i + 1, k);
    if WantedToken(x.cache0, r.card).Some? {
      WritersWant(x, r);
    }
    CardStays(x, k, x.cache0.userIds[k], At(f, s, ts, i + 1), RunTasks(f, s, ts), WantedToken(x.cache0, r.card));
  }

  // ---- new members ----

  /** The equipment of a new account, once it raises nothing. */
  lemma EquippedTurn(f: Faults, s: Session, r: ResolvedMember, ids: map<ContactId, UserId>, record: UserRecord)
    requires r.policy.Some? && r.contact in s.cache.userIds && s.cache.userIds[r.contact] in s.ctl.users
    requires var u := s.cache.userIds[r.contact];
      && s.ctl.users[u] == record && record.status == ACTIVE
      && (forall t :: !Holds(s.ctl, u, t)) && Equip(f, s, r, u).out.Fine?
    ensures var u := s.cache.userIds[r.contact]; var s' := Equip(f, s, r, u).s;
      && s'.cache.userIds == s.cache.userIds && u in s'.ctl.users
      && s'.ctl.users[u] == SwitchedOn(record, r.policy) && HoldsExactly(s'.ctl, u, WantedToken(s.cache, r.card))
      && (EmailRefused(s'.log, ids, r.contact) <==> EmailRefused(s.log, ids, r.contact))
  {
    var u := s.cache.userIds[r.contact];
    EquipEffect(f, s, r, u);
    RefusalStays(s.log, Equip(f, s, r, u).s.log, ids, r.contact);
  }

  /** A create that raises nothing is its write and its equipment. */
  lemma CreatedWhole(f: Faults, s: Session, r: ResolvedMember)
    requires r.name != "" && r.contact !in s.cache.userIds && RunTask(f, s, Add(r)).failures == s.failures
    ensures var (s1, reply) := WriteUser(f, s, None, CreationFields(r));
      && reply.Created? && s1.failures == s.failures
      && var step := Equip(f, Registered(s1, r.contact, reply.user), r, reply.user);
      && step.out.Fine? && RunTask(f, s, Add(r)) == step.s
  {
    CreateUnfolds(f, s, r);
  }

  lemma CreatedReady(x: Run, f: Faults, s: Session, r: ResolvedMember, ids: map<ContactId, UserId>)
    requires RunOk(x) && Good(x, s) && r in x.writers && r.name != "" && r.contact !in s.cache.userIds
    requires !EmailRefused(s.log, ids, r.contact) && WriteUser(f, s, None, CreationFields(r)).1.Created?
    ensures var (s1, reply) := WriteUser(f, s, None, CreationFields(r));
      && s1.cache == s.cache && reply.user in s1.ctl.users && s1.ctl.users[reply.user].status == ACTIVE
      && s1.ctl.users[reply.user] == Written(NEW_USER, Kept(CreationFields(r), s1.log, ids, r.contact))
      && (forall t :: !Holds(s1.ctl, reply.user, t))
  {
    RegisteredIsGood(x, f, s, r);
    CreateWriteEffect(f, s, ids, r.contact, CreationFields(r));
  }

  lemma CreatedTurn(x: Run, f: Faults, s: Session, r: ResolvedMember, ids: map<ContactId, UserId>)
    requires RunOk(x) && Good(x, s) && r in x.writers && r.name != "" && r.policy.Some?
    requires r.contact !in s.cache.userIds && !EmailRefused(s.log, ids, r.contact)
    requires RunTask(f, s, Add(r)).failures == s.failures
    ensures var k := r.contact; var s' := RunTask(f, s, Add(r));
      k in s'.cache.userIds && s'.cache.userIds[k] in s'.ctl.users
    ensures var s' := RunTask(f, s, Add(r)); var u := s'.cache.userIds[r.contact];
      && s'.ctl.users[u] == SwitchedOn(Written(NEW_USER, KeptFrom(s, s', r, ids)), r.policy)
      && HoldsExactly(s'.ctl, u, WantedToken(s.cache, r.card))
  {
    CreatedWhole(f, s, r);
    CreatedReady(x, f, s, r, ids);
    var (s1, reply) := WriteUser(f, s, None, CreationFields(r));
    EquippedTurn(f, Registered(s1, r.contact, reply.user), r, ids, s1.ctl.users[reply.user]);
  }

  ghost function KeptFrom(s: Session, s': Session, r: ResolvedMember, ids: map<ContactId, UserId>): Fields
    requires r.name != ""
  {
    Kept(CreationFields(r), s'.log, ids, r.contact)
  }

  lemma CreatedAccount(x: Run, f: Faults, s: Session, ts: seq<Task>, i: nat)
    requires Underway(x, s, ts) && i < |ts| && Sole(ts, i)
    requires ts[i].Add? && ts[i].member.policy.Some? && !Fails(f, s, ts, i)
    requires var k := TaskContact(ts[i]); k !in x.cache0.userIds && !EmailRefused(s.log, x.cache0.userIds, k)
    ensures var r := ts[i].member; var k := r.contact; var s' := RunTasks(f, s, ts);
      && k in s'.cache.userIds && s'.cache.userIds[k] in s'.ctl.users
      && s'.ctl.users[s'.cache.userIds[k]] ==
           SwitchedOn(Written(NEW_USER, Kept(CreationFields(r), s'.log, x.cache0.userIds, k)), r.policy)
      && HoldsExactly(s'.ctl, s'.cache.userIds[k], WantedToken(x.cache0, r.card))
  {
    var r, k := ts[i].member, TaskContact(ts[i]);
    var ids := x.cache0.userIds;
    Between(x, f, s, ts, 0, i, k);
    assert ts[..0] == [];
    GoodAt(x, f, s, ts, i);
    AtNext(f, s, ts, i);
    CreatedTurn(x, f, At(f, s, ts, i), r, ids);
    Between(x, f, s, ts, i + 1, |ts|, k);
    AtEnd(f, s, ts);
    var u := At(f, s, ts, i + 1).cache.userIds[k];
    assert AccountKept(x, k, u, At(f, s, ts, i + 1), RunTasks(f, s, ts));
    if WantedToken(x.cache0, r.card).Some? {
      WritersWant(x, r);
    }
    CardStays(x, k, u, At(f, s, ts, i + 1), RunTasks(f, s, ts), WantedToken(x.cache0, r.card));
  }

  // ---- active members ----

  ghost predicate SameCards(c: State, c': State, u: UserId) {
    forall t :: Holds(c', u, t) <==> Holds(c, u, t)
  }

  lemma ActiveKeepsCards(x: Run, k: ContactId, u: UserId, s: Session, s': Session)
    requires AccountKept(x, k, u, s, s') && s.ctl.users[u].status == ACTIVE
    ensures SameCards(s.ctl, s'.ctl, u)
  {
  }

  /** What a credential entry makes of a record, and a policy entry after it. */
  ghost function Swapped(record: UserRecord, p: Pair, log: seq<Event>, ids: map<ContactId, UserId>): UserRecord
    requires p.member.name != ""
  {
    Written(record, Kept(CredentialFields(p.member, p.user), log, ids, p.member.contact))
  }

  function Granted(record: UserRecord, p: Pair): UserRecord {
    if p.member.policy.Some? then record.(policies := [p.member.policy.value]) else record
  }

  ghost predicate CardSwapped(c: State, c': State, u: UserId, p: Pair, cache: Cache) {
    if p.member.card == p.user.card then SameCards(c, c', u)
    else HoldsExactly(c', u, WantedToken(cache, p.member.card))
  }

  lemma CredentialTurn(x: Run, f: Faults, s: Session, p: Pair, ids: map<ContactId, UserId>)
    requires RunOk(x) && Good(x, s) && p.member in x.writers && p.member.name != ""
    requires p.member.contact in s.cache.userIds && p.member.contact in ids
    requires ids[p.member.contact] == s.cache.userIds[p.member.contact]
    requires ids[p.member.contact] in s.ctl.users && !EmailRefused(s.log, ids, p.member.contact)
    requires RunTask(f, s, Credential(p)).failures == s.failures
    ensures var u := ids[p.member.contact]; var s' := RunTask(f, s, Credential(p));
      && u in s'.ctl.users
      && s'.ctl.users[u] == Swapped(s.ctl.users[u], p, s'.log, ids)
      && CardSwapped(s.ctl, s'.ctl, u, p, s.cache)
  {
    UpdateCredentialEffect(f, s, ids, p);
    if p.member.card != p.user.card {
      SweptToIsWanted(x, s, RunTask(f, s, Credential(p)), p.member, ids[p.member.contact]);
    }
  }

  lemma CredentialAt(x: Run, f: Faults, s: Session, ts: seq<Task>, i: nat)
    requires Underway(x, s, ts) && i < |ts| && ts[i].Credential? && !Fails(f, s, ts, i)
    requires var k := TaskContact(ts[i]);
      k in x.cache0.userIds && !EmailRefused(At(f, s, ts, i).log, x.cache0.userIds, k)
    ensures var u := x.cache0.userIds[TaskContact(ts[i])]; var si, sj := At(f, s, ts, i), At(f, s, ts, i + 1);
      && u in si.ctl.users && u in sj.ctl.users
      && sj.ctl.users[u] == Swapped(si.ctl.users[u], ts[i].pair, sj.log, x.cache0.userIds)
      && CardSwapped(si.ctl, sj.ctl, u, ts[i].pair, x.cache0)
  {
    UserAt(x, f, s, ts, i, TaskContact(ts[i]));
    GoodAt(x, f, s, ts, i);
    AtNext(f, s, ts, i);
    CredentialTurn(x, f, At(f, s, ts, i), ts[i].pair, x.cache0.userIds);
  }

  lemma PolicyTurn(f: Faults, s: Session, p: Pair, ids: map<ContactId, UserId>)
    requires p.member.contact in s.cache.userIds && s.cache.userIds[p.member.contact] in s.ctl.users
    requires RunTask(f, s, Policy(p)).failures == s.failures
    ensures var u := s.cache.userIds[p.member.contact]; var s' := RunTask(f, s, Policy(p));
      && u in s'.ctl.users && s'.ctl.users[u] == Granted(s.ctl.users[u], p) && SameCards(s.ctl, s'.ctl, u)
      && (EmailRefused(s'.log, ids, p.member.contact) <==> EmailRefused(s.log, ids, p.member.contact))
  {
    AssignEffect(f, s, s.cache.userIds[p.member.contact], p.member.policy);
    RefusalStays(s.log, RunTask(f, s, Policy(p)).log, ids, p.member.contact);
  }

  lemma PolicyAt(x: Run, f: Faults, s: Session, ts: seq<Task>, i: nat)
    requires Underway(x, s, ts) && i < |ts| && ts[i].Policy? && !Fails(f, s, ts, i)
    requires TaskContact(ts[i]) in x.cache0.userIds
    ensures var k := TaskContact(ts[i]); var u := x.cache0.userIds[k];
      var si, sj := At(f, s, ts, i), At(f, s, ts, i + 1);
      && u in si.ctl.users && u in sj.ctl.users
      && sj.ctl.users[u] == Granted(si.ctl.users[u], ts[i].pair) && SameCards(si.ctl, sj.ctl, u)
      && (EmailRefused(sj.log, x.cache0.userIds, k) <==> EmailRefused(si.log, x.cache0.userIds, k))
  {
    UserAt(x, f, s, ts, i, TaskContact(ts[i]));
    AtNext(f, s, ts, i);
    PolicyTurn(f, At(f, s, ts, i), ts[i].pair, x.cache0.userIds);
  }

  /** The account of `k` has become this record, with the same cards and no further refused email. */
  ghost predicate Becomes(ids: map<ContactId, UserId>, k: ContactId, s: Session, s': Session, record: UserRecord)
    requires k in ids
  {
    && ids[k] in s'.ctl.users && s'.ctl.users[ids[k]] == record && SameCards(s.ctl, s'.ctl, ids[k])
    && (EmailRefused(s'.log, ids, k) <==> EmailRefused(s.log, ids, k))
  }

  ghost predicate ActiveAt(ids: map<ContactId, UserId>, k: ContactId, s: Session) {
    k in ids && ids[k] in s.ctl.users && s.ctl.users[ids[k]].status == ACTIVE
  }

  lemma NoEntryLeft(x: Run, f: Faults, s: Session, ts: seq<Task>, m: nat, k: ContactId)
    requires Underway(x, s, ts) && m <= |ts| && ActiveAt(x.cache0.userIds, k, At(f, s, ts, m))
    requires forall i :: m <= i < |ts| ==> TaskContact(ts[i]) != k
    ensures var sm := At(f, s, ts, m);
      Becomes(x.cache0.userIds, k, sm, RunTasks(f, s, ts), sm.ctl.users[x.cache0.userIds[k]])
  {
    AfterTurn(x, f, s, ts, m, k);
    ActiveKeepsCards(x, k, x.cache0.userIds[k], At(f, s, ts, m), RunTasks(f, s, ts));
  }

  lemma NoEntryBetween(x: Run, f: Faults, s: Session, ts: seq<Task>, m: nat, n: nat, k: ContactId)
    requires Underway(x, s, ts) && m <= n <= |ts| && ActiveAt(x.cache0.userIds, k, At(f, s, ts, m))
    requires forall i :: m <= i < n ==> TaskContact(ts[i]) != k
    ensures var sm := At(f, s, ts, m);
      Becomes(x.cache0.userIds, k, sm, At(f, s, ts, n), sm.ctl.users[x.cache0.userIds[k]])
  {
    UserAt(x, f, s, ts, m, k);
    Between(x, f, s, ts, m, n, k);
    ActiveKeepsCards(x, k, x.cache0.userIds[k], At(f, s, ts, m), At(f, s, ts, n));
  }

  /** From entry `m` on, the contact has only its policy entry `i` left. */
  lemma PolicyLeft(x: Run, f: Faults, s: Session, ts: seq<Task>, m: nat, i: nat, k: ContactId)
    requires Underway(x, s, ts) && m <= i < |ts| && ActiveAt(x.cache0.userIds, k, At(f, s, ts, m))
    requires TaskContact(ts[i]) == k && ts[i].Policy? && !Fails(f, s, ts, i)
    requires forall j :: m <= j < |ts| && j != i ==> TaskContact(ts[j]) != k
    ensures var sm := At(f, s, ts, m);
      Becomes(x.cache0.userIds, k, sm, RunTasks(f, s, ts), Granted(sm.ctl.users[x.cache0.userIds[k]], ts[i].pair))
  {
    NoEntryBetween(x, f, s, ts, m, i, k);
    PolicyAt(x, f, s, ts, i);
    NoEntryLeft(x, f, s, ts, i + 1, k);
  }

  /** The contact's credential entry `i`, the first of its entries. */
  lemma CredentialPart(x: Run, f: Faults, s: Session, ts: seq<Task>, i: nat, k: ContactId)
    requires Underway(x, s, ts) && i < |ts| && ActiveAt(x.cache0.userIds, k, s)
    requires !EmailRefused(s.log, x.cache0.userIds, k)
    requires TaskContact(ts[i]) == k && ts[i].Credential? && !Fails(f, s, ts, i)
    requires forall j :: 0 <= j < i ==> TaskContact(ts[j]) != k
    ensures var u := x.cache0.userIds[k]; var sj := At(f, s, ts, i + 1);
      && u in sj.ctl.users && sj.ctl.users[u] == Swapped(s.ctl.users[u], ts[i].pair, sj.log, x.cache0.userIds)
      && CardSwapped(s.ctl, sj.ctl, u, ts[i].pair, x.cache0)
  {
    assert ts[..0] == [];
    NoEntryBetween(x, f, s, ts, 0, i, k);
    CredentialAt(x, f, s, ts, i);
  }

  /** The entries of an active member: at most a credential entry and a policy entry. */
  ghost predicate HasEntries(ts: seq<Task>, p: Pair, credential: bool, policy: bool) {
    && OneEntryPerContact(ts)
    && (forall i :: 0 <= i < |ts| && TaskContact(ts[i]) == p.member.contact ==>
          (credential && ts[i] == Credential(p)) || (policy && ts[i] == Policy(p)))
    && (credential ==> Credential(p) in ts)
    && (policy ==> Policy(p) in ts)
  }

  ghost function AfterCredential(record: UserRecord, p: Pair, credential: bool, log: seq<Event>,
                                 ids: map<ContactId, UserId>): UserRecord
    requires credential ==> p.member.name != ""
  {
    if credential then Swapped(record, p, log, ids) else record
  }

  function AfterPolicy(record: UserRecord, p: Pair, policy: bool): UserRecord {
    if policy then Granted(record, p) else record
  }

  /** From entry `m` on, with the credential entry behind. */
  lemma PolicyPart(x: Run, f: Faults, s: Session, ts: seq<Task>, m: nat, p: Pair, policy: bool)
    requires Underway(x, s, ts) && m <= |ts| && ActiveAt(x.cache0.userIds, p.member.contact, At(f, s, ts, m))
    requires forall i :: 0 <= i < |ts| ==> !Fails(f, s, ts, i)
    requires forall i :: m <= i < |ts| && TaskContact(ts[i]) == p.member.contact ==> policy && ts[i] == Policy(p)
    requires forall i, j :: 0 <= i < j < |ts| && TaskContact(ts[i]) == TaskContact(ts[j]) ==> !ts[i].Policy?
    requires policy ==> exists i :: m <= i < |ts| && ts[i] == Policy(p)
    ensures var k := p.member.contact; var sm := At(f, s, ts, m);
      Becomes(x.cache0.userIds, k, sm, RunTasks(f, s, ts), AfterPolicy(sm.ctl.users[x.cache0.userIds[k]], p, policy))
  {
    if policy {
      var i :| m <= i < |ts| && ts[i] == Policy(p);
      PolicyLeft(x, f, s, ts, m, i, p.member.contact);
    } else {
      NoEntryLeft(x, f, s, ts, m, p.member.contact);
    }
  }

  /** The account of an active member at the end of the run. */
  lemma ActiveAccount(x: Run, f: Faults, s: Session, ts: seq<Task>, p: Pair, credential: bool, policy: bool)
    requires Underway(x, s, ts) && HasEntries(ts, p, credential, policy) && (credential ==> p.member.name != "")
    requires forall i :: 0 <= i < |ts| ==> !Fails(f, s, ts, i)
    requires ActiveAt(x.cache0.userIds, p.member.contact, s) && !EmailRefused(s.log, x.cache0.userIds, p.member.contact)
    ensures var u := x.cache0.userIds[p.member.contact]; var s' := RunTasks(f, s, ts);
      && u in s'.ctl.users
      && s'.ctl.users[u] ==
           AfterPolicy(AfterCredential(s.ctl.users[u], p, credential, s'.log, x.cache0.userIds), p, policy)
      && (if credential then CardSwapped(s.ctl, s'.ctl, u, p, x.cache0) else SameCards(s.ctl, s'.ctl, u))
  {
    var k := p.member.contact;
    assert ts[..0] == [];
    if credential {
      var i :| 0 <= i < |ts| && ts[i] == Credential(p);
      CredentialPart(x, f, s, ts, i, k);
      if policy {
        var j :| 0 <= j < |ts| && ts[j] == Policy(p);
        assert i < j;
      }
      PolicyPart(x, f, s, ts, i + 1, p, policy);
    } else {
      PolicyPart(x, f, s, ts, 0, p, policy);
    }
  }
}
