/**
An apply as a change of the fetched records, the form in which the design states it; and what the real
client, read back, leaves of it: everything but stuck names and emails, and cards that were freed.
*/
module AbstractApply {
  import opened Models
  import opened Controller
  import opened Protocol
  import opened Reconciler
  import opened Safety
  import opened CardIndex
  import opened Effects
  import opened ForceBind
  import opened Frame
  import opened Cycle
  import opened Isolation
  import opened Soundness
  import opened Doubles
  import opened Accounts
  import opened Refinement

  // ---- the abstract apply ----

  function Added(r: ResolvedMember): UnifiUser {
    UnifiUser(r.contact, r.name, r.card, true, r.policy, r.email)
  }

  function AddAll(rs: seq<ResolvedMember>, m: Present): Present {
    if rs == [] then m else AddAll(rs[..|rs| - 1], m)[rs[|rs| - 1].contact := Added(rs[|rs| - 1])]
  }

  function Recarded(u: UnifiUser, r: ResolvedMember): UnifiUser {
    u.(name := r.name, card := r.card, email := r.email)
  }

  function RecardAll(ps: seq<Pair>, m: Present): Present {
    if ps == [] then m
    else
      var front, p := RecardAll(ps[..|ps| - 1], m), ps[|ps| - 1];
      if p.user.contact in front then front[p.user.contact := Recarded(front[p.user.contact], p.member)] else front
  }

  function RepolicyAll(ps: seq<Pair>, m: Present): Present {
    if ps == [] then m
    else
      var front, p := RepolicyAll(ps[..|ps| - 1], m), ps[|ps| - 1];
      if p.user.contact !in front then front
      else front[p.user.contact := front[p.user.contact].(policy := p.member.policy)]
  }

  function SwitchOffAll(us: seq<UnifiUser>, m: Present): Present {
    if us == [] then m
    else
      var front, k := SwitchOffAll(us[..|us| - 1], m), us[|us| - 1].contact;
      if k in front then front[k := front[k].(active := false)] else front
  }

  function ApplyDiff(d: Diff, m: Present): Present {
    SwitchOffAll(d.toDeactivate, RepolicyAll(d.toUpdatePolicy, RecardAll(d.toUpdateCredential, AddAll(d.toAdd, m))))
  }

  // ---- what it does to one contact ----

  lemma {:induction false} AddAllAt(rs: seq<ResolvedMember>, m: Present, k: ContactId, target: Option<UnifiUser>)
    requires forall r :: r in rs && r.contact == k ==> Some(Added(r)) == target
    ensures Lookup(AddAll(rs, m), k) == if exists r :: r in rs && r.contact == k then target else Lookup(m, k)
  {
    if rs != [] {
      var front, last := rs[..|rs| - 1], rs[|rs| - 1];
      assert rs == front + [last];
      AddAllAt(front, m, k, target);
    }
  }

  lemma {:induction false} RecardAllAt(ps: seq<Pair>, m: Present, k: ContactId, r: ResolvedMember)
    requires forall p :: p in ps && p.user.contact == k ==> p.member == r
    ensures k in RecardAll(ps, m) <==> k in m
    ensures k in m ==>
              RecardAll(ps, m)[k] == if exists p :: p in ps && p.user.contact == k then Recarded(m[k], r) else m[k]
  {
    if ps != [] {
      var front, last := ps[..|ps| - 1], ps[|ps| - 1];
      assert ps == front + [last];
      RecardAllAt(front, m, k, r);
    }
  }

  lemma {:induction false} RepolicyAllAt(ps: seq<Pair>, m: Present, k: ContactId, policy: Option<string>)
    requires forall p :: p in ps && p.user.contact == k ==> p.member.policy == policy
    ensures k in RepolicyAll(ps, m) <==> k in m
    ensures k in m ==>
      RepolicyAll(ps, m)[k] == if exists p :: p in ps && p.user.contact == k then m[k].(policy := policy) else m[k]
  {
    if ps != [] {
      var front, last := ps[..|ps| - 1], ps[|ps| - 1];
      assert ps == front + [last];
      RepolicyAllAt(front, m, k, policy);
    }
  }

  lemma {:induction false} SwitchOffAllAt(us: seq<UnifiUser>, m: Present, k: ContactId)
    ensures k in SwitchOffAll(us, m) <==> k in m
    ensures k in m ==>
      SwitchOffAll(us, m)[k] == if exists u :: u in us && u.contact == k then m[k].(active := false) else m[k]
  {
    if us != [] {
      var front, last := us[..|us| - 1], us[|us| - 1];
      assert us == front + [last];
      SwitchOffAllAt(front, m, k);
    }
  }

  /** The record a computed difference asks for. */
  function Projected(wanted: Wanted, present: Present, k: ContactId): Option<UnifiUser> {
    if Reconciler.Adds(k, wanted, present) then Some(Added(wanted[k]))
    else if k !in present then None
    else
      var u := present[k];
      var u1 := if UpdatesCredential(k, wanted, present) then Recarded(u, wanted[k]) else u;
      var u2 := if UpdatesPolicy(k, wanted, present) then u1.(policy := wanted[k].policy) else u1;
      Some(if Deactivates(k, wanted, present) then u2.(active := false) else u2)
  }

  /** For a computed difference the abstract apply gives every contact the record the decision table names. */
  lemma ApplyDiffAt(members: seq<ResolvedMember>, users: seq<UnifiUser>, d: Diff, k: ContactId)
    requires IsDiff(members, users, d)
    ensures Lookup(ApplyDiff(d, IndexPresent(users)), k) == Projected(IndexWanted(members), IndexPresent(users), k)
  {
    var wanted, present := IndexWanted(members), IndexPresent(users);
    Reported(members, users, d);
    WantedByContact(members);
    PresentByContact(users);
    var r := if k in wanted then wanted[k] else ResolvedMember(k, "", None, None, Unmapped, None);
    AddAllAt(d.toAdd, present, k, Some(Added(r)));
    var m1 := AddAll(d.toAdd, present);
    RecardAllAt(d.toUpdateCredential, m1, k, r);
    var m2 := RecardAll(d.toUpdateCredential, m1);
    RepolicyAllAt(d.toUpdatePolicy, m2, k, r.policy);
    SwitchOffAllAt(d.toDeactivate, RepolicyAll(d.toUpdatePolicy, m2), k);
  }

  lemma ProjectedSettles(wanted: Wanted, present: Present, present': Present, k: ContactId)
    requires Lookup(present', k) == Projected(wanted, present, k) && !IsUnmapped(k, wanted)
    ensures Untouched(k, wanted, present')
  {
  }

  /** The documented promise, of the abstract apply: nothing is left to do. */
  lemma AbstractApplySettles(members: seq<ResolvedMember>, users: seq<UnifiUser>, d: Diff, users': seq<UnifiUser>,
                             d': Diff)
    requires IsDiff(members, users, d) && d.unmapped == []
    requires IndexPresent(users') == ApplyDiff(d, IndexPresent(users)) && IsDiff(members, users', d')
    ensures d' == Diff([], [], [], [], [])
  {
    var wanted, present, present' := IndexWanted(members), IndexPresent(users), IndexPresent(users');
    Reported(members, users, d);
    forall k ensures Untouched(k, wanted, present') {
      ApplyDiffAt(members, users, d, k);
      ProjectedSettles(wanted, present, present', k);
    }
    EmptyExactlyWhenInSync(members, users', d');
  }

  // ---- what the client leaves of it ----

  /** The record read back is the target but for a stuck name or email. */
  ghost predicate ReadAs(x: UnifiUser, target: UnifiUser, nameStuck: bool, emailStuck: bool) {
    && x.contact == target.contact && x.active == target.active && x.policy == target.policy
    && (x.name != target.name <==> nameStuck) && (EmailDiffers(target.email, x.email) <==> emailStuck)
  }

  lemma SettledReadsAs(x: UnifiUser, wanted: Wanted, present: Present, k: ContactId, refused: bool)
    requires WantsDoor(k, wanted) && wanted[k].contact == k
    requires x.contact == k && (k in present ==> present[k].contact == k)
    requires Settled(x, wanted[k], NameStuck(k, wanted, present),
                     refused && EmailDiffers(wanted[k].email, EmailSeen(k, present)))
    ensures var target := Projected(wanted, present, k);
      && target.Some? && x.card == target.value.card
      && ReadAs(x, target.value, NameStuck(k, wanted, present),
                refused && EmailDiffers(wanted[k].email, EmailSeen(k, present)))
  {
  }

  /** A member with access reads as projected, the card included. */
  lemma MemberReadsAs(y: Round, p: Session, s': Session, rows': seq<UserRow>, k: ContactId)
    requires WentThrough(y, p, s') && MembersOk(y.members, y.cfg.managed)
    requires Lists(rows', s'.ctl, y.cfg.managed) && WantsDoor(k, WantedIn(y)) && !Doubled(s'.ctl, k)
    ensures var present' := Next(rows', s'.ctl, y.cfg.managed); var target := Projected(WantedIn(y), PresentIn(y), k);
      && k in present' && target.Some? && present'[k].card == target.value.card
      && ReadAs(present'[k], target.value, NameStuck(k, WantedIn(y), PresentIn(y)),
                EmailStuck(k, WantedIn(y), PresentIn(y), s'.log, y.s.cache.userIds))
  {
    MemberSettles(y, p, s', rows', k);
    WantedByContact(y.members);
    PresentByContact(UsersIn(y));
    PresentByContact(Fetched(rows', s'.ctl, y.cfg.managed));
    SettledReadsAs(Next(rows', s'.ctl, y.cfg.managed)[k], WantedIn(y), PresentIn(y), k,
                   EmailRefused(s'.log, y.s.cache.userIds, k));
  }

  // ---- everybody else ----

  /** A card shown before is shown after if the user still holds it; otherwise none is. */
  ghost predicate CardLeft(c: State, c': State, u: UserId, before: Option<CardId>, after: Option<CardId>) {
    after == if exists t :: Holds(c, u, t) && Holds(c', u, t) then before else None
  }

  lemma LeftCardIsShown(c: State, p: State, c': State, u: UserId, before: Option<CardId>, after: Option<CardId>)
    requires WellFormed(c) && OneCardEach(c) && CardsExtend(c, p) && c'.cards == p.cards
    requires forall t :: Holds(c', u, t) ==> Holds(c, u, t)
    requires CardShown(before, c, u) && CardShown(after, c', u)
    ensures CardLeft(c, c', u, before, after)
  {
    NumbersKept(c, p, c');
  }

  /** The account of a contact that is not added or updated gains no card and keeps its record, but for the status. */
  ghost predicate OnlyLoses(y: Round, s': Session, k: ContactId, status: string) {
    k in y.s.cache.userIds && var u := y.s.cache.userIds[k];
    && u in y.s.ctl.users && u in s'.ctl.users
    && s'.ctl.users[u] == y.s.ctl.users[u].(status := status)
    && (forall t :: Holds(s'.ctl, u, t) ==> Holds(y.s.ctl, u, t))
  }

  lemma DepartedTurn(x: Run, f: Faults, s: Session, ts: seq<Task>, i: nat)
    requires Underway(x, s, ts) && i < |ts| && Sole(ts, i) && ts[i].Deactivate? && !Fails(f, s, ts, i)
    requires TaskContact(ts[i]) in x.cache0.userIds
    ensures var u := x.cache0.userIds[TaskContact(ts[i])]; var c' := RunTasks(f, s, ts).ctl;
      && u in s.ctl.users && u in c'.users && c'.users[u] == s.ctl.users[u].(status := DEACTIVATED)
      && (forall t :: Holds(c', u, t) ==> Holds(s.ctl, u, t))
  {
    var k := TaskContact(ts[i]);
    var u := x.cache0.userIds[k];
    assert ts[..0] == [];
    UserAt(x, f, s, ts, 0, k);
    UserAt(x, f, s, ts, i, k);
    UserAt(x, f, s, ts, i + 1, k);
    Between(x, f, s, ts, 0, i, k);
    Between(x, f, s, ts, i + 1, |ts|, k);
    assert AccountKept(x, k, u, s, At(f, s, ts, i));
    assert AccountKept(x, k, u, At(f, s, ts, i + 1), At(f, s, ts, |ts|));
    AtNext(f, s, ts, i);
    DeactivateEffect(f, At(f, s, ts, i), k, u);
    AtEnd(f, s, ts);
  }

  lemma DepartedOnlyLoses(y: Round, p: Session, s': Session, k: ContactId)
    requires WentThrough(y, p, s') && Deactivates(k, WantedIn(y), PresentIn(y))
    ensures OnlyLoses(y, s', k, DEACTIVATED)
  {
    RunFacts(y, p, s');
    KnownIsShown(y, k);
    Reported(y.members, UsersIn(y), y.d);
    PresentByContact(UsersIn(y));
    EntryPlaces(y.d);
    var i := SoleEntry(Tasks(y.d), Deactivate(PresentIn(y)[k]));
    DepartedTurn(RunOf(p, y.d), y.f, p, Tasks(y.d), i);
  }

  lemma BystanderOnlyLoses(y: Round, p: Session, s': Session, k: ContactId)
    requires WentThrough(y, p, s') && k in PresentIn(y)
    requires forall t :: t in Tasks(y.d) ==> TaskContact(t) != k
    ensures k in y.s.cache.userIds && y.s.cache.userIds[k] in y.s.ctl.users
    ensures OnlyLoses(y, s', k, y.s.ctl.users[y.s.cache.userIds[k]].status)
    ensures IsActive(k, PresentIn(y)) ==> SameCards(y.s.ctl, s'.ctl, y.s.cache.userIds[k])
  {
    KnownIsShown(y, k);
    BystanderIsSame(y, p, s', k);
    BystandersAreSpared(y, p, s', k);
    assert AccountKept(RunOf(p, y.d), k, y.s.cache.userIds[k], p, s');
  }

  // ---- cards of bystanders change hands only to the member they are for ----

  ghost predicate Unwanted(x: Run, t: Token) {
    forall j :: !Wants(x, j, t)
  }

  lemma UnwantedStaysInTask(x: Run, f: Faults, s: Session, t: Task, v: UserId, a: Token)
    requires RunOk(x) && Good(x, s) && Named(t) && TaskInRun(x, t) && Unwanted(x, a) && Holds(s.ctl, v, a)
    requires TaskContact(t) in s.cache.userIds ==> s.cache.userIds[TaskContact(t)] != v
    ensures Holds(RunTask(f, s, t).ctl, v, a)
  {
    if TaskContact(t) in s.cache.userIds {
      TaskTouches(f, s, s.cache.userIds, t);
      if TaskToken(s.cache, t) == Some(a) {
        TokenIsWanted(x, s, t, a);
      }
    } else if t.Add? {
      UnwantedStaysInCreate(x, f, s, t.member, v, a);
    }
  }

  lemma UnwantedStaysInEquip(x: Run, f: Faults, s: Session, r: ResolvedMember, u: UserId, v: UserId, a: Token)
    requires RunOk(x) && Good(x, s) && r in x.writers && Unwanted(x, a) && Holds(s.ctl, v, a) && v != u
    requires u in s.ctl.users
    ensures Holds(Equip(f, s, r, u).s.ctl, v, a)
  {
    EquipEffect(f, s, r, u);
    if TaskToken(s.cache, Add(r)) == Some(a) {
      TokenIsWanted(x, s, Add(r), a);
    }
  }

  lemma UnwantedStaysInCreate(x: Run, f: Faults, s: Session, r: ResolvedMember, v: UserId, a: Token)
    requires RunOk(x) && Good(x, s) && r in x.writers && r.name != "" && Unwanted(x, a) && Holds(s.ctl, v, a)
    requires r.contact !in s.cache.userIds
    ensures Holds(RunTask(f, s, Add(r)).ctl, v, a)
  {
    CreateUnfolds(f, s, r);
    RegisteredIsGood(x, f, s, r);
    WriteUserKeepsGood(x, f, s, None, CreationFields(r));
    var (s1, reply) := WriteUser(f, s, None, CreationFields(r));
    if reply.Created? {
      UnwantedStaysInEquip(x, f, Registered(s1, r.contact, reply.user), r, reply.user, v, a);
    }
  }

  lemma {:induction false} UnwantedStays(x: Run, f: Faults, s: Session, ts: seq<Task>, n: nat, k: ContactId, a: Token)
    requires Underway(x, s, ts) && n <= |ts| && k in x.cache0.userIds && Spares(ts, k)
    requires Unwanted(x, a) && Holds(s.ctl, x.cache0.userIds[k], a)
    ensures Holds(At(f, s, ts, n).ctl, x.cache0.userIds[k], a)
  {
    if n == 0 {
      assert ts[..0] == [];
    } else {
      UnwantedStays(x, f, s, ts, n - 1, k, a);
      GoodAt(x, f, s, ts, n - 1);
      UserAt(x, f, s, ts, n - 1, k);
      AtNext(f, s, ts, n - 1);
      UnwantedStaysInTask(x, f, At(f, s, ts, n - 1), ts[n - 1], x.cache0.userIds[k], a);
    }
  }

  lemma UnwantedStaysThrough(x: Run, f: Faults, s: Session, ts: seq<Task>, k: ContactId, a: Token)
    requires Underway(x, s, ts) && k in x.cache0.userIds && Spares(ts, k)
    requires Holds(s.ctl, x.cache0.userIds[k], a) && !Holds(RunTasks(f, s, ts).ctl, x.cache0.userIds[k], a)
    ensures exists j :: Wants(x, j, a)
  {
    AtEnd(f, s, ts);
    if Unwanted(x, a) {
      UnwantedStays(x, f, s, ts, |ts|, k, a);
    }
  }

  /** A bystander loses a card only to a member that is to get it. */
  lemma BystanderLosesToWanter(y: Round, p: Session, s': Session, k: ContactId, a: Token)
    requires Ran(y, p, s') && k in y.s.cache.userIds && Spares(Tasks(y.d), k)
    requires Holds(y.s.ctl, y.s.cache.userIds[k], a) && !Holds(s'.ctl, y.s.cache.userIds[k], a)
    ensures exists w :: w in Writers(y.d) && WantedToken(p.cache, w.card) == Some(a)
  {
    UnwantedStaysThrough(RunOf(p, y.d), y.f, p, Tasks(y.d), k, a);
    WanterIsWriter(RunOf(p, y.d), p, a);
  }

  lemma WanterIsWriter(x: Run, p: Session, a: Token)
    requires x.cache0 == p.cache && x.tokens == (if p.cache.tokenMap.Some? then p.cache.tokenMap.value else map[])
    requires exists j :: Wants(x, j, a)
    ensures exists w :: w in x.writers && WantedToken(p.cache, w.card) == Some(a)
  {
    var j :| Wants(x, j, a);
    var i :| 0 <= i < |x.writers| && x.writers[i].contact == j && TokenOf(x, x.writers[i]) == Some(a);
    assert x.writers[i] in x.writers;
  }

  // ---- everybody reads as projected ----

  /** The one account of a contact that is not added is what the next fetch shows. */
  lemma KnownShows(s: Session, rows: seq<UserRow>, managed: Option<set<string>>, k: ContactId, u: UserId)
    requires Lists(rows, s.ctl, managed) && k > 0 && u in s.ctl.users && s.ctl.users[u].employee == Some(k)
    requires forall v :: v in s.ctl.users && s.ctl.users[v].employee == Some(k) ==> IsKnownAs(s, v, k)
    ensures var present := Next(rows, s.ctl, managed); k in present && Appears(present[k], s.ctl, u, managed)
  {
    assert !Doubled(s.ctl, k);
    FetchShowsOne(rows, s.ctl, managed, k);
  }

  lemma SoleUserShows(y: Round, p: Session, s': Session, rows': seq<UserRow>, k: ContactId)
    requires WentThrough(y, p, s') && Lists(rows', s'.ctl, y.cfg.managed) && k !in AddedBy(Tasks(y.d))
    requires k > 0 && k in y.s.cache.userIds
    requires var u := y.s.cache.userIds[k]; u in s'.ctl.users && s'.ctl.users[u].employee == Some(k)
    ensures var present' := Next(rows', s'.ctl, y.cfg.managed);
      k in present' && Appears(present'[k], s'.ctl, y.s.cache.userIds[k], y.cfg.managed)
  {
    UserIsKnown(y, p, s', k);
    KnownShows(s', rows', y.cfg.managed, k, y.s.cache.userIds[k]);
  }

  lemma LosesReadsAs(x: UnifiUser, x': UnifiUser, c: State, c': State, u: UserId, managed: Option<set<string>>,
                     status: string)
    requires u in c.users && u in c'.users && c'.users[u] == c.users[u].(status := status)
    requires Appears(x, c, u, managed) && Appears(x', c', u, managed)
    ensures ReadAs(x', x.(active := status == ACTIVE), false, false)
  {
  }

  lemma NotAddedOtherwise(y: Round, k: ContactId)
    requires Started(y) && !WantsDoor(k, WantedIn(y))
    ensures k !in AddedBy(Tasks(y.d))
    ensures !Deactivates(k, WantedIn(y), PresentIn(y)) ==> forall t :: t in Tasks(y.d) ==> TaskContact(t) != k
  {
    Reported(y.members, UsersIn(y), y.d);
    EntryPlaces(y.d);
    var ts := Tasks(y.d);
    forall i | 0 <= i < |ts| && ts[i].Add? ensures TaskContact(ts[i]) != k {
      assert ts[i] in ts;
    }
  }

  /** Somebody without access who was shown before is shown as projected; cards may have been freed. */
  lemma OthersReadAs(y: Round, p: Session, s': Session, rows': seq<UserRow>, k: ContactId, status: string)
    requires WentThrough(y, p, s') && Lists(rows', s'.ctl, y.cfg.managed)
    requires !WantsDoor(k, WantedIn(y)) && k in PresentIn(y)
    requires OnlyLoses(y, s', k, status)
    ensures var present' := Next(rows', s'.ctl, y.cfg.managed); var before := PresentIn(y)[k];
      && k in present' && ReadAs(present'[k], before.(active := status == ACTIVE), false, false)
      && CardLeft(y.s.ctl, s'.ctl, y.s.cache.userIds[k], before.card, present'[k].card)
  {
    var u := y.s.cache.userIds[k];
    NotAddedOtherwise(y, k);
    KnownIsShown(y, k);
    SoleUserShows(y, p, s', rows', k);
    RunFacts(y, p, s');
    var x' := Next(rows', s'.ctl, y.cfg.managed)[k];
    LosesReadsAs(PresentIn(y)[k], x', y.s.ctl, s'.ctl, u, y.cfg.managed, status);
    LeftCardIsShown(y.s.ctl, p.ctl, s'.ctl, u, PresentIn(y)[k].card, x'.card);
  }

  /** Nobody is shown who was not shown before and was not added. */
  lemma NobodyElseShown(y: Round, p: Session, s': Session, rows': seq<UserRow>, k: ContactId)
    requires WentThrough(y, p, s') && Lists(rows', s'.ctl, y.cfg.managed)
    requires k !in PresentIn(y) && !WantsDoor(k, WantedIn(y))
    ensures k !in Next(rows', s'.ctl, y.cfg.managed)
  {
    Observe(y, p, s', rows', k);
    NotAddedOtherwise(y, k);
    KnownIsShown(y, k);
    if k > 0 {
      UserIsKnown(y, p, s', k);
      BystanderIsSame(y, p, s', k);
    }
  }

  /** How contact `k` reads after an apply, against the abstract apply. */
  ghost predicate ReadsAsProjected(y: Round, s': Session, rows': seq<UserRow>, k: ContactId) {
    var wanted, present, present' := WantedIn(y), PresentIn(y), Next(rows', s'.ctl, y.cfg.managed);
    var target := Lookup(ApplyDiff(y.d, present), k);
    && (k in present' <==> target.Some?)
    && (k in present' ==>
          ReadAs(present'[k], target.value, WantsDoor(k, wanted) && NameStuck(k, wanted, present),
                 WantsDoor(k, wanted) && EmailStuck(k, wanted, present, s'.log, y.s.cache.userIds)))
    && (k in present' && (WantsDoor(k, wanted) || (IsActive(k, present) && !Deactivates(k, wanted, present))) ==>
          present'[k].card == target.value.card)
    && (k in present' && !WantsDoor(k, wanted) ==> k in y.s.cache.userIds)
    && (k in present' && !WantsDoor(k, wanted) ==>
          CardLeft(y.s.ctl, s'.ctl, y.s.cache.userIds[k], target.value.card, present'[k].card))
  }

  lemma DepartedReadsAs(y: Round, p: Session, s': Session, rows': seq<UserRow>, k: ContactId)
    requires WentThrough(y, p, s') && Lists(rows', s'.ctl, y.cfg.managed) && Deactivates(k, WantedIn(y), PresentIn(y))
    ensures ReadsAsProjected(y, s', rows', k)
  {
    ApplyDiffAt(y.members, UsersIn(y), y.d, k);
    DepartedOnlyLoses(y, p, s', k);
    StatusesDiffer();
    OthersReadAs(y, p, s', rows', k, DEACTIVATED);
  }

  lemma BystanderReadsAs(y: Round, p: Session, s': Session, rows': seq<UserRow>, k: ContactId)
    requires WentThrough(y, p, s') && Lists(rows', s'.ctl, y.cfg.managed) && k in PresentIn(y)
    requires !WantsDoor(k, WantedIn(y)) && !Deactivates(k, WantedIn(y), PresentIn(y))
    ensures ReadsAsProjected(y, s', rows', k)
  {
    ApplyDiffAt(y.members, UsersIn(y), y.d, k);
    NotAddedOtherwise(y, k);
    BystanderOnlyLoses(y, p, s', k);
    KnownIsShown(y, k);
    OthersReadAs(y, p, s', rows', k, y.s.ctl.users[y.s.cache.userIds[k]].status);
  }

  /**
  The client does what the abstract apply does. When an apply raises nothing, every contact whose create
  was not carried out twice is read back exactly when the abstract apply has it, with the same activity and
  policy, the same name and email but for stuck ones, and the same card, except that a contact without access
  that is off afterwards shows no card when it no longer holds the one it had.
  */
  lemma AppliedAsProjected(y: Round, rows': seq<UserRow>, k: ContactId)
    requires Started(y) && Applied(y).out.Fine? && MembersOk(y.members, y.cfg.managed)
    requires Lists(rows', Applied(y).s.ctl, y.cfg.managed) && !Twice(y, Applied(y).s, k)
    ensures ReadsAsProjected(y, Applied(y).s, rows', k)
  {
    AppliedIsRun(y);
    RunReadsAsProjected(y, RunStart(y).s, Applied(y).s, rows', k);
  }

  lemma RunReadsAsProjected(y: Round, p: Session, s': Session, rows': seq<UserRow>, k: ContactId)
    requires WentThrough(y, p, s') && MembersOk(y.members, y.cfg.managed)
    requires Lists(rows', s'.ctl, y.cfg.managed) && !Twice(y, s', k)
    ensures ReadsAsProjected(y, s', rows', k)
  {
    if WantsDoor(k, WantedIn(y)) {
      RunKeepsUnique(y, p, s');
      ApplyDiffAt(y.members, UsersIn(y), y.d, k);
      MemberReadsAs(y, p, s', rows', k);
    } else if Deactivates(k, WantedIn(y), PresentIn(y)) {
      DepartedReadsAs(y, p, s', rows', k);
    } else if k in PresentIn(y) {
      BystanderReadsAs(y, p, s', rows', k);
    } else {
      ApplyDiffAt(y.members, UsersIn(y), y.d, k);
      NobodyElseShown(y, p, s', rows', k);
    }
  }
}
