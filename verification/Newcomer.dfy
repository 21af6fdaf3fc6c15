/**
The smallest rounds in which the documented empty difference fails: one new member on an empty controller,
whose name is a single word, whose email belongs to an administrator, or whose create is sent twice.
*/
module Newcomer {
  import opened Models
  import opened Text
  import opened Codec
  import opened Controller
  import opened Protocol
  import opened Safety
  import opened Reconciler
  import opened CardIndex
  import opened Effects
  import opened Frame
  import opened Cycle
  import opened Snapshot
  import opened Isolation
  import opened Refinement
  import opened Convergence
  import opened Emails
  import opened Listings

  /** A controller without users or cards, and with these administrators. */
  function Empty(admins: set<string>): State {
    State(map[], map[], [], admins, 0, 0)
  }

  function Person(name: string, email: Option<string>): ResolvedMember {
    ResolvedMember(1, name, None, Some("door"), Tier, email)
  }

  ghost function First(f: Faults, admins: set<string>, r: ResolvedMember): Round {
    Round(f, Config(0, None), Session(Empty(admins), [], NO_CACHE, []), [], [r],
          Diff([r], [], [], [], []))
  }

  lemma WantedOne(r: ResolvedMember)
    ensures IndexWanted([r]) == map[r.contact := r]
  {
    assert [r][..0] == [];
  }

  lemma OneDiff(r: ResolvedMember)
    requires r.resolution == Tier && r.policy.Some?
    ensures IsDiff([r], [], Diff([r], [], [], [], []))
  {
    WantedOne(r);
    var wanted, present: Present := IndexWanted([r]), map[];
    assert wanted.Keys + present.Keys == {r.contact};
    assert IndexPresent([]) == present;
    assert Reconciler.Adds(r.contact, wanted, present);
  }

  lemma NewcomerStarts(f: Faults, admins: set<string>, name: string, email: Option<string>)
    requires name != ""
    ensures Started(First(f, admins, Person(name, email)))
    ensures MembersOk([Person(name, email)], None)
    ensures IndexWanted([Person(name, email)]) == map[1 := Person(name, email)]
  {
    var r := Person(name, email);
    OneDiff(r);
    WantedOne(r);
    var y := First(f, admins, r);
    assert Lists(y.rows, y.s.ctl, None);
    assert Writers(y.d) == [r];
  }

  lemma NobodyBlocks(c: State, members: seq<ResolvedMember>)
    requires c.bound == map[]
    ensures Unblocked(c, members)
  {
  }

  /** Without faults the newcomer is let in. */
  lemma NewcomerIsLetIn(f: Faults, admins: set<string>, name: string, email: Option<string>)
    requires NoFaults(f) && name != ""
    ensures var y := First(f, admins, Person(name, email));
      Started(y) && MembersOk(y.members, None) && Applied(y).out.Fine? && AllNamed(Tasks(y.d))
  {
    var y := First(f, admins, Person(name, email));
    NewcomerStarts(f, admins, name, email);
    NobodyBlocks(y.s.ctl, y.members);
    SecondCycleSettles(y);
    TasksAreNamed(y.d);
  }

  /** The next difference holds the newcomer exactly when the name or the email is stuck. */
  lemma NewcomerRemains(f: Faults, admins: set<string>, name: string, email: Option<string>, rows': seq<UserRow>,
                        d': Diff)
    requires NoFaults(f) && name != "" && AllNamed(Tasks(First(f, admins, Person(name, email)).d))
    requires var y := First(f, admins, Person(name, email));
      Started(y) && MembersOk(y.members, None) && Applied(y).out.Fine?
    requires var y := First(f, admins, Person(name, email)); var c' := Applied(y).s.ctl;
      Lists(rows', c', None) && IsDiff(y.members, Fetched(rows', c', None), d')
    ensures d'.toUpdateCredential != [] <==>
            var y := First(f, admins, Person(name, email)); Stays(y, RunStart(y).s, 1)
  {
    var y := First(f, admins, Person(name, email));
    FaultlessFixedPoint(y, rows', d');
    WantedOne(Person(name, email));
    OneMemberResidue(y, RunStart(y).s, d');
  }

  lemma OneMemberResidue(y: Round, p: Session, d': Diff)
    requires AllNamed(Tasks(y.d)) && WantedIn(y).Keys == {1} && OnlyResidue(d', iset k | Stays(y, p, k))
    ensures d'.toUpdateCredential != [] <==> Stays(y, p, 1)
  {
    var stuck := iset k | Stays(y, p, k);
    if d'.toUpdateCredential != [] {
      var e := d'.toUpdateCredential[0];
      assert e in d'.toUpdateCredential && e.member.contact in stuck;
    }
    assert 1 in stuck <==> Stays(y, p, 1);
  }

  // ---- a single word ----

  lemma SingleWordStays(y: Round, p: Session, r: ResolvedMember)
    requires WantedIn(y) == map[1 := r] && r.resolution == Tier && r.policy.Some? && PresentIn(y) == map[]
    requires r.name != "" && !NameRoundTrips(r.name) && AllNamed(Tasks(y.d))
    ensures Stays(y, p, 1)
  {
  }

  /** A word is let in and comes back with a dash, so every later difference holds the member again. */
  lemma SingleWordRemains(f: Faults, name: string, rows': seq<UserRow>, d': Diff)
    requires NoFaults(f) && name != "" && !NameRoundTrips(name)
    ensures var y := First(f, {}, Person(name, None)); Started(y) && Applied(y).out.Fine?
    ensures var y := First(f, {}, Person(name, None)); var c' := Applied(y).s.ctl;
      Lists(rows', c', None) && IsDiff(y.members, Fetched(rows', c', None), d') ==> d'.toUpdateCredential != []
  {
    NewcomerIsLetIn(f, {}, name, None);
    var y := First(f, {}, Person(name, None));
    if Lists(rows', Applied(y).s.ctl, None) && IsDiff(y.members, Fetched(rows', Applied(y).s.ctl, None), d') {
      NewcomerRemains(f, {}, name, None, rows', d');
      WantedOne(Person(name, None));
      SingleWordStays(y, RunStart(y).s, Person(name, None));
    }
  }

  // ---- a taken email ----

  lemma OnlyEntry(f: Faults, admins: set<string>, r: ResolvedMember)
    ensures Tasks(First(f, admins, r).d) == [Add(r)]
  {
  }

  lemma StartHasAdmins(f: Faults, admins: set<string>, r: ResolvedMember)
    requires r.name != "" && r.card.None?
    ensures CardsInRange(First(f, admins, r).d) && Writers(First(f, admins, r).d) == [r]
    ensures var p := RunStart(First(f, admins, r)).s; p.ctl.adminEmails == admins && p.cache.userIds == map[]
  {
    var y := First(f, admins, r);
    assert Writers(y.d) == [r];
    assert NeededCards([r], map[]) == [];
  }

  lemma TakenByAdmin(f: Faults, p: Session, email: string, admins: set<string>, name: string)
    requires name != "" && email != "" && Lower(email) in admins
    requires p.ctl.adminEmails == admins && p.cache.userIds == map[]
    ensures AllNamed(Tasks(First(f, admins, Person(name, Some(email))).d))
    ensures TakenAtTurn(First(f, admins, Person(name, Some(email))), p, 1)
  {
    var y := First(f, admins, Person(name, Some(email)));
    OnlyEntry(f, admins, Person(name, Some(email)));
    assert Tasks(y.d)[..0] == [];
    assert At(f, p, Tasks(y.d), 0) == p;
  }

  lemma TakenEmailStays(y: Round, p: Session, r: ResolvedMember)
    requires WantedIn(y) == map[1 := r] && r.resolution == Tier && r.policy.Some? && PresentIn(y) == map[]
    requires r.email.Some? && r.email.value != "" && AllNamed(Tasks(y.d)) && TakenAtTurn(y, p, 1)
    ensures Stays(y, p, 1)
  {
  }

  /** An administrator's email is dropped, so every later difference holds the member again. */
  lemma TakenEmailRemains(f: Faults, name: string, email: string, rows': seq<UserRow>, d': Diff)
    requires NoFaults(f) && name != "" && email != ""
    ensures var y := First(f, {Lower(email)}, Person(name, Some(email))); Started(y) && Applied(y).out.Fine?
    ensures var y := First(f, {Lower(email)}, Person(name, Some(email))); var c' := Applied(y).s.ctl;
      Lists(rows', c', None) && IsDiff(y.members, Fetched(rows', c', None), d') ==> d'.toUpdateCredential != []
  {
    var admins, r := {Lower(email)}, Person(name, Some(email));
    var y := First(f, admins, r);
    NewcomerIsLetIn(f, admins, name, Some(email));
    if Lists(rows', Applied(y).s.ctl, None) && IsDiff(y.members, Fetched(rows', Applied(y).s.ctl, None), d') {
      NewcomerRemains(f, admins, name, Some(email), rows', d');
      StartHasAdmins(f, admins, r);
      TakenByAdmin(f, RunStart(y).s, email, admins, name);
      WantedOne(r);
      TakenEmailStays(y, RunStart(y).s, r);
    }
  }

  /** Both are about something: a later listing and its difference exist. */
  lemma SomethingRemains(f: Faults, admins: set<string>, r: ResolvedMember) returns (y2: Round)
    ensures var y := First(f, admins, r); Compared(y2) && y2.s.ctl == Applied(y).s.ctl && y2.members == y.members
  {
    y2 := SomeRound(Applied(First(f, admins, r)).s.ctl, f, Config(0, None), [r]);
  }

  // ---- a create sent twice ----

  /** Everything is answered, but the create, the second request, is sent twice. */
  ghost predicate SecondResent(f: Faults) {
    forall n :: f(n) == if n == 1 then Resend(0, true) else Answer
  }

  /** The shared import reads the card list and finds nothing to import. */
  lemma ListReadOnce(f: Faults, admins: set<string>, r: ResolvedMember)
    requires f(0) == Answer && r.card.None?
    ensures CardsInRange(First(f, admins, r).d) && Writers(First(f, admins, r).d) == [r]
    ensures var step := RunStart(First(f, admins, r));
      && step.out.Fine? && step.s.ctl == Empty(admins) && |step.s.log| == 1 && step.s.failures == []
      && step.s.cache.userIds == map[] && step.s.cache.cards == map[]
  {
    var y := First(f, admins, r);
    assert Writers(y.d) == [r];
    assert NeededCards([r], map[]) == [];
  }

  /** The two accounts: the first one bare, the second one with the policy. */
  ghost predicate TwoAccounts(c: State) {
    && c.users.Keys == {0, 1} && c.bound == map[] && c.cards == []
    && IsNew(c.users[0], 1) && c.users[1].employee == Some(1) && c.users[1].status == ACTIVE
  }

  lemma CreatedTwice(f: Faults, p: Session, admins: set<string>, name: string)
    requires SecondResent(f) && name != "" && p.ctl == Empty(admins) && |p.log| == 1 && p.cache.userIds == map[]
    ensures var s' := RunTask(f, p, Add(Person(name, None))); s'.failures == p.failures && TwoAccounts(s'.ctl)
  {
    var r := Person(name, None);
    CreateUnfolds(f, p, r);
    TwiceWritten(f, p, CreationFields(r));
    var (s1, reply) := WriteUser(f, p, None, CreationFields(r));
    var s2 := Registered(s1, 1, reply.user);
    var step := Equip(f, s2, r, reply.user);
    EquipEffect(f, s2, r, reply.user);
    assert |s2.log| == 2;
    assert step.out.Fine?;
  }

  lemma TwiceWritten(f: Faults, p: Session, fields: Fields)
    requires f(|p.log|) == Resend(0, true) && fields.employee == Some(1) && fields.email.None?
    requires p.ctl.users == map[] && p.ctl.nextUser == 0
    ensures var (s1, reply) := WriteUser(f, p, None, fields);
      && reply == Created(1) && |s1.log| == |p.log| + 1 && s1.cache == p.cache && s1.failures == p.failures
      && s1.ctl.users.Keys == {0, 1} && IsNew(s1.ctl.users[0], 1) && IsNew(s1.ctl.users[1], 1)
      && s1.ctl.bound == p.ctl.bound && s1.ctl.cards == p.ctl.cards
  {
    var r := CreateUser(fields);
    assert Resent(p.ctl, r, 0) == Exec(p.ctl, r);
    var c1 := Exec(p.ctl, r).0;
    assert Resent(p.ctl, r, 1) == Exec(c1, r);
  }

  /** The apply raises nothing, and leaves two accounts. */
  lemma ResentIsApplied(f: Faults, admins: set<string>, name: string)
    requires SecondResent(f) && name != ""
    ensures var y := First(f, admins, Person(name, None));
      Started(y) && Applied(y).out.Fine? && TwoAccounts(Applied(y).s.ctl)
  {
    var r := Person(name, None);
    var y := First(f, admins, r);
    NewcomerStarts(f, admins, name, None);
    ListReadOnce(f, admins, r);
    var p := RunStart(y).s;
    CreatedTwice(f, p, admins, name);
    OnlyEntry(f, admins, r);
    OneTask(f, p, Add(r));
    NamedApply(f, y.cfg, y.s, y.d);
  }

  lemma OneTask(f: Faults, s: Session, t: Task)
    requires Named(t)
    ensures AllNamed([t]) && RunTasks(f, s, [t]) == RunTask(f, s, t)
  {
    assert [t][..0] == [];
  }

  /** A listing that shows the bare account last. */
  lemma BareLast(c: State) returns (rows: seq<UserRow>)
    requires TwoAccounts(c)
    ensures Lists(rows, c, None) && |rows| == 2 && rows[0].id == 1 && rows[1].id == 0
  {
    rows := SomeListing(c, None, [1, 0]);
  }

  lemma LastRowShows(rows: seq<UserRow>, c: State)
    requires Lists(rows, c, None) && TwoAccounts(c) && |rows| == 2 && rows[1].id == 0
    ensures var present := IndexPresent(Fetched(rows, c, None));
      1 in present && present[1].active && present[1].policy == None
  {
    RowAppears(rows[1], c, None);
    assert rows == rows[..1] + [rows[1]];
    assert ManagedOf([], None) == [];
  }

  /** So some later listing shows the member without its policy: the next difference sets it again. */
  lemma ResentRemains(f: Faults, admins: set<string>, name: string) returns (rows': seq<UserRow>, d': Diff)
    requires SecondResent(f) && name != ""
    ensures var y := First(f, admins, Person(name, None));
      Started(y) && Applied(y).out.Fine? && !UniqueContacts(Applied(y).s.ctl)
    ensures var y := First(f, admins, Person(name, None)); var c' := Applied(y).s.ctl;
      Lists(rows', c', None) && IsDiff(y.members, Fetched(rows', c', None), d') && d'.toUpdatePolicy != []
  {
    var r := Person(name, None);
    var y := First(f, admins, r);
    ResentIsApplied(f, admins, name);
    var c' := Applied(y).s.ctl;
    rows' := BareLast(c');
    LastRowShows(rows', c');
    WantedOne(r);
    d' := SomeDiff([r], Fetched(rows', c', None));
    Reported([r], Fetched(rows', c', None), d');
    assert UpdatesPolicy(1, IndexWanted([r]), IndexPresent(Fetched(rows', c', None)));
  }
}
