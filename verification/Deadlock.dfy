/**
Deadlocks: when active members each want a card that another of them holds, no single apply can
settle it, whatever the requests answer. Together with the convergence theorem: two cycles are exact.
*/
module Deadlock {
  import opened Models
  import opened Controller
  import opened Protocol
  import opened Reconciler
  import opened CardIndex
  import opened Effects
  import opened ForceBind
  import opened Frame
  import opened Cycle
  import opened Isolation
  import opened Refinement
  import opened Convergence

  // ---- one blocked entry ----

  /** A card entry fails as long as another contact's active account holds the card. */
  lemma BlockedFails(x: Run, f: Faults, s: Session, ts: seq<Task>, i: nat, j: ContactId, t: Token)
    requires Underway(x, s, ts) && i < |ts| && ts[i].Credential? && TaskContact(ts[i]) != j
    requires TaskContact(ts[i]) in x.cache0.userIds && j in x.cache0.userIds
    requires ts[i].pair.member.card != ts[i].pair.user.card
    requires WantedToken(x.cache0, ts[i].pair.member.card) == Some(t)
    requires var c, v := At(f, s, ts, i).ctl, x.cache0.userIds[j];
      Holds(c, v, t) && v in c.users && c.users[v].status == ACTIVE
    ensures Fails(f, s, ts, i)
  {
    var si := At(f, s, ts, i);
    UserAt(x, f, s, ts, i, TaskContact(ts[i]));
    UserAt(x, f, s, ts, i, j);
    GoodAt(x, f, s, ts, i);
    TaskLeaves(x, f, si, ts[i], j);
    UpdateCredentialEffect(f, si, si.cache.userIds, ts[i].pair);
    assert AccountKept(x, j, x.cache0.userIds[j], si, RunTask(f, si, ts[i]));
  }

  /** An active account keeps its cards until its own entries come. */
  lemma StillHeld(x: Run, f: Faults, s: Session, ts: seq<Task>, i: nat, j: ContactId, t: Token)
    requires Underway(x, s, ts) && i <= |ts| && j in x.cache0.userIds
    requires forall m :: 0 <= m < i ==> TaskContact(ts[m]) != j
    requires var v := x.cache0.userIds[j]; Holds(s.ctl, v, t) && v in s.ctl.users && s.ctl.users[v].status == ACTIVE
    ensures var c, v := At(f, s, ts, i).ctl, x.cache0.userIds[j];
      Holds(c, v, t) && v in c.users && c.users[v].status == ACTIVE
  {
    assert ts[..0] == [];
    UserAt(x, f, s, ts, 0, j);
    Between(x, f, s, ts, 0, i, j);
    assert AccountKept(x, j, x.cache0.userIds[j], At(f, s, ts, 0), At(f, s, ts, i));
  }

  // ---- a closed group ----

  /** Card `n` is held by the account of another contact of the group. */
  ghost predicate HeldInGroup(s: Session, group: set<ContactId>, k: ContactId, n: CardId) {
    n in CardTokens(s.ctl) && exists j :: j in group && j != k && HeldBy(s, CardTokens(s.ctl)[n], j)
  }

  ghost predicate HeldBy(s: Session, t: Token, j: ContactId) {
    j in s.cache.userIds && Holds(s.ctl, s.cache.userIds[j], t)
  }

  /** A member with access and an active account that wants another card, held by another of the group. */
  ghost predicate Stuck(y: Round, group: set<ContactId>, k: ContactId) {
    && WantsDoor(k, WantedIn(y)) && IsActive(k, PresentIn(y)) && WantedIn(y)[k].card.Some?
    && WantedIn(y)[k].card != PresentIn(y)[k].card
    && HeldInGroup(y.s, group, k, WantedIn(y)[k].card.value)
  }

  /** Each of the group is stuck on another of it: a swap, a cycle, or several cycles. */
  ghost predicate Deadlocked(y: Round, group: set<ContactId>) {
    (exists k :: k in group) && forall k :: k in group ==> Stuck(y, group, k)
  }

  ghost predicate SwapsIn(ts: seq<Task>, i: nat, group: set<ContactId>) {
    i < |ts| && ts[i].Credential? && TaskContact(ts[i]) in group
  }

  /** The first credential entry of the group. */
  lemma FirstOfGroup(ts: seq<Task>, group: set<ContactId>, last: nat) returns (i: nat)
    requires SwapsIn(ts, last, group)
    ensures SwapsIn(ts, i, group) && forall m :: 0 <= m < i ==> !SwapsIn(ts, m, group)
  {
    i := 0;
    while !SwapsIn(ts, i, group)
      invariant i <= last
      invariant forall m :: 0 <= m < i ==> !SwapsIn(ts, m, group)
      decreases last - i
    {
      i := i + 1;
    }
  }

  lemma StuckIsListed(y: Round, group: set<ContactId>, k: ContactId)
    requires Started(y) && Stuck(y, group, k)
    ensures var t := Credential(Pair(WantedIn(y)[k], PresentIn(y)[k])); t in Tasks(y.d) && TaskContact(t) == k
  {
    WantedByContact(y.members);
    Reported(y.members, UsersIn(y), y.d);
    EntryPlaces(y.d);
    assert UpdatesCredential(k, WantedIn(y), PresentIn(y));
  }

  /** A stuck contact has a credential entry, and no entry before that one. */
  lemma StuckEntry(y: Round, group: set<ContactId>, k: ContactId) returns (i: nat)
    requires Started(y) && Stuck(y, group, k) && OneEntryPerContact(Tasks(y.d))
    ensures SwapsIn(Tasks(y.d), i, {k}) && forall m :: 0 <= m < i ==> TaskContact(Tasks(y.d)[m]) != k
  {
    StuckIsListed(y, group, k);
    i := CredentialPlace(Tasks(y.d), Credential(Pair(WantedIn(y)[k], PresentIn(y)[k])));
  }

  lemma CredentialPlace(ts: seq<Task>, t: Task) returns (i: nat)
    requires t in ts && t.Credential? && OneEntryPerContact(ts)
    ensures SwapsIn(ts, i, {TaskContact(t)}) && forall m :: 0 <= m < i ==> TaskContact(ts[m]) != TaskContact(t)
  {
    i :| 0 <= i < |ts| && ts[i] == t;
  }

  /** Every credential entry pairs the member's wish with what the fetch showed. */
  lemma EntryOfContact(y: Round, i: nat)
    requires Started(y) && i < |Tasks(y.d)| && Tasks(y.d)[i].Credential?
    ensures var k := TaskContact(Tasks(y.d)[i]);
      UpdatesCredential(k, WantedIn(y), PresentIn(y)) && Tasks(y.d)[i].pair == Pair(WantedIn(y)[k], PresentIn(y)[k])
  {
    Reported(y.members, UsersIn(y), y.d);
    EntryPlaces(y.d);
    assert Tasks(y.d)[i] in Tasks(y.d);
  }

  /** The holder of a stuck member's card, and the token the run will ask for. */
  lemma HolderOf(y: Round, p: Session, s': Session, group: set<ContactId>, i: nat) returns (j: ContactId, t: Token)
    requires Ran(y, p, s') && Deadlocked(y, group) && SwapsIn(Tasks(y.d), i, group)
    ensures var k := TaskContact(Tasks(y.d)[i]);
      && k in y.s.cache.userIds && j in group && j != k && HeldBy(y.s, t, j)
      && WantedToken(p.cache, WantedIn(y)[k].card) == Some(t) && WantedIn(y)[k].card != PresentIn(y)[k].card
  {
    var k := TaskContact(Tasks(y.d)[i]);
    EntryOfContact(y, i);
    assert Stuck(y, group, k);
    KnownIsShown(y, k);
    EntryPlaces(y.d);
    assert Tasks(y.d)[i] in Tasks(y.d);
    assert Tasks(y.d)[i].pair in y.d.toUpdateCredential;
    IsWriter(y.d, WantedIn(y)[k]);
    WriterToken(y, p, s', WantedIn(y)[k]);
    t := CardTokens(y.s.ctl)[WantedIn(y)[k].card.value];
    j :| j in group && j != k && HeldBy(y.s, t, j);
  }

  lemma ShownActive(y: Round, j: ContactId)
    requires Started(y) && IsActive(j, PresentIn(y))
    ensures j in y.s.cache.userIds
    ensures var u := y.s.cache.userIds[j]; u in y.s.ctl.users && y.s.ctl.users[u].status == ACTIVE
  {
    KnownIsShown(y, j);
  }

  /** The first entry of the group fails: its card's holder is active and has not had its turn. */
  lemma FirstEntryFails(y: Round, p: Session, s': Session, group: set<ContactId>, i: nat)
    requires Ran(y, p, s') && Deadlocked(y, group) && SwapsIn(Tasks(y.d), i, group)
    requires forall m :: 0 <= m < i ==> !SwapsIn(Tasks(y.d), m, group)
    ensures Fails(y.f, p, Tasks(y.d), i)
  {
    var x, ts := RunOf(p, y.d), Tasks(y.d);
    var j, t := HolderOf(y, p, s', group, i);
    assert Stuck(y, group, j);
    var n := StuckEntry(y, group, j);
    assert SwapsIn(ts, n, group);
    EntryOfContact(y, i);
    ShownActive(y, j);
    StillHeld(x, y.f, p, ts, i, j, t);
    BlockedFails(x, y.f, p, ts, i, j, t);
  }

  lemma SomeEntry(y: Round, group: set<ContactId>) returns (t: Task)
    requires Started(y) && Deadlocked(y, group)
    ensures t in Tasks(y.d) && t.Credential? && TaskContact(t) in group
  {
    var k :| k in group;
    assert Stuck(y, group, k);
    StuckIsListed(y, group, k);
    t := Credential(Pair(WantedIn(y)[k], PresentIn(y)[k]));
  }

  lemma GroupEntry(ts: seq<Task>, group: set<ContactId>, t: Task) returns (i: nat)
    requires t in ts && t.Credential? && TaskContact(t) in group
    ensures SwapsIn(ts, i, group) && forall m :: 0 <= m < i ==> !SwapsIn(ts, m, group)
  {
    var n :| 0 <= n < |ts| && ts[n] == t;
    i := FirstOfGroup(ts, group, n);
  }

  lemma FailedIsReported(x: Run, f: Faults, s: Session, ts: seq<Task>, i: nat)
    requires Underway(x, s, ts) && s.failures == [] && i < |ts| && Fails(f, s, ts, i)
    ensures TaskContact(ts[i]) in RunTasks(f, s, ts).failures
  {
    FailuresAreNamed(x, f, s, ts, |ts|, TaskContact(ts[i]));
    AtEnd(f, s, ts);
    assert FailedBefore(f, s, ts, |ts|, TaskContact(ts[i]));
  }

  lemma DeadlockIsReported(y: Round, p: Session, s': Session, group: set<ContactId>)
    requires Ran(y, p, s') && Deadlocked(y, group)
    ensures exists k :: k in group && k in s'.failures
  {
    var t := SomeEntry(y, group);
    var i := GroupEntry(Tasks(y.d), group, t);
    FirstEntryFails(y, p, s', group, i);
    FailedIsReported(RunOf(p, y.d), y.f, p, Tasks(y.d), i);
    assert TaskContact(Tasks(y.d)[i]) in group && TaskContact(Tasks(y.d)[i]) in s'.failures;
  }

  /**
  A deadlock is never settled in one cycle: whatever the requests answer, the apply raises, and if the
  shared import worked it reports a member of the group.
  */
  lemma DeadlockNeedsTwoCycles(y: Round, group: set<ContactId>)
    requires Started(y) && Deadlocked(y, group)
    ensures Applied(y).out.Raised?
    ensures RunStart(y).out.Fine? ==> exists k :: k in group && k in Applied(y).s.failures
  {
    if RunStart(y).out.Fine? {
      AppliedIsRun(y);
      DeadlockIsReported(y, RunStart(y).s, Applied(y).s, group);
    }
  }
}
