/**
Convergence: whatever permutation, chain or cycle of card changes is asked for, two cycles without
request failures settle it. The first frees every card that its present holder must give up; then
nothing is blocked any more.
*/
module Convergence {
  import opened Models
  import opened Controller
  import opened Protocol
  import opened Safety
  import opened Reconciler
  import opened Snapshot
  import opened CardIndex
  import opened Effects
  import opened ForceBind
  import opened Cycle
  import opened Isolation
  import opened Soundness
  import opened Doubles
  import opened Refinement
  import opened Fluency
  import opened Release

  const MAX_CARDS: nat := USERS_PAGE * USERS_PAGES

  // ---- nothing blocked, nothing fails ----

  /** Card `n` can be given to contact `k`: nobody has it, or the contact itself, or a disabled account. */
  ghost predicate Free(c: State, k: ContactId, n: CardId) {
    n in CardTokens(c) && CardTokens(c)[n] in c.bound && c.bound[CardTokens(c)[n]] in c.users ==>
      var holder := c.users[c.bound[CardTokens(c)[n]]];
      holder.employee == Some(k) || IsDisabled(holder.status)
  }

  ghost predicate Unblocked(c: State, members: seq<ResolvedMember>) {
    var wanted := IndexWanted(members);
    forall k :: WantsDoor(k, wanted) && wanted[k].card.Some? ==> Free(c, k, wanted[k].card.value)
  }

  /** Those whose card is written are members with access. */
  lemma WritersAreMembers(members: seq<ResolvedMember>, users: seq<UnifiUser>, d: Diff, w: ResolvedMember)
    requires IsDiff(members, users, d) && w in Writers(d)
    ensures WantsDoor(w.contact, IndexWanted(members)) && IndexWanted(members)[w.contact] == w
  {
    Reported(members, users, d);
    var i :| 0 <= i < |Writers(d)| && Writers(d)[i] == w;
    if i < |d.toAdd| {
      assert w in d.toAdd;
    } else {
      assert d.toUpdateCredential[i - |d.toAdd|] in d.toUpdateCredential;
    }
  }

  /** The token a writer's card has after the import: new, or the one it had. */
  lemma WriterToken(y: Round, p: Session, s': Session, w: ResolvedMember)
    requires Ran(y, p, s')
    requires w in Writers(y.d) && w.card.Some?
    ensures var wanted := WantedToken(p.cache, w.card); var n := w.card.value;
      && wanted.Some? && wanted.value < p.ctl.nextToken
      && (if n in CardTokens(y.s.ctl) then wanted.value == CardTokens(y.s.ctl)[n]
          else wanted.value >= y.s.ctl.nextToken)
  {
    WritersHaveTokens(y, p, s', w);
    ControllerIndexes(p.cache, p.ctl);
  }

  lemma UnblockedIsClear(y: Round, p: Session, s': Session)
    requires Ran(y, p, s')
    requires MembersOk(y.members, y.cfg.managed) && Unblocked(y.s.ctl, y.members)
    ensures AllClear(RunOf(p, y.d), p)
  {
    forall w | w in Writers(y.d) && w.card.Some? ensures ClearFor(p, w) {
      WriterToken(y, p, s', w);
      WritersAreMembers(y.members, UsersIn(y), y.d, w);
      assert Free(y.s.ctl, w.contact, w.card.value);
      var t := WantedToken(p.cache, w.card).value;
      if t in p.ctl.bound {
        assert Managed(Some(w.contact));
      }
    }
  }

  /** Without faults and without blocked cards, no contact is reported. */
  lemma UnblockedGoesThrough(y: Round, p: Session, s': Session)
    requires Ran(y, p, s') && NoFaults(y.f)
    requires MembersOk(y.members, y.cfg.managed) && Unblocked(y.s.ctl, y.members)
    ensures WentThrough(y, p, s')
  {
    UnblockedIsClear(y, p, s');
    assert Tasks(y.d)[..0] == [];
    RunWorks(RunOf(p, y.d), y.f, p, Tasks(y.d), 0, |Tasks(y.d)|);
    AtEnd(y.f, p, Tasks(y.d));
  }

  /** Without faults the shared import works, as long as the card list can be read whole. */
  lemma ImportWorks(y: Round)
    requires Started(y) && NoFaults(y.f) && |y.s.ctl.cards| < MAX_CARDS
    ensures RunStart(y).out.Fine?
  {
    StartedIsGood(y);
    PreImportResult(y.f, y.cfg, y.s.(failures := []), y.d);
  }

  // ---- the first cycle releases every card in scope ----

  /** No two members with access want the same card. */
  ghost predicate DistinctMemberCards(wanted: Wanted) {
    forall j, k :: WantsDoor(j, wanted) && WantsDoor(k, wanted) && j != k && wanted[j].card.Some? ==>
      wanted[j].card != wanted[k].card
  }

  /** The account's contact is a member with access, or is being deactivated. */
  ghost predicate Managing(employee: Option<ContactId>, wanted: Wanted, present: Present) {
    Managed(employee) && (WantsDoor(employee.value, wanted) || Deactivates(employee.value, wanted, present))
  }

  /** The present holder of card `n`, if any, is the contact itself, a disabled account, or one this cycle manages. */
  ghost predicate InScope(c: State, wanted: Wanted, present: Present, k: ContactId, n: CardId) {
    n in CardTokens(c) && CardTokens(c)[n] in c.bound && c.bound[CardTokens(c)[n]] in c.users ==>
      var holder := c.users[c.bound[CardTokens(c)[n]]];
      holder.employee == Some(k) || IsDisabled(holder.status) || Managing(holder.employee, wanted, present)
  }

  ghost predicate AllInScope(c: State, members: seq<ResolvedMember>, present: Present) {
    var wanted := IndexWanted(members);
    forall k :: WantsDoor(k, wanted) && wanted[k].card.Some? ==> InScope(c, wanted, present, k, wanted[k].card.value)
  }

  /** A run without request failures, for members who want different cards. */
  ghost predicate Calm(y: Round, p: Session, s': Session) {
    Ran(y, p, s') && NoFaults(y.f) && MembersOk(y.members, y.cfg.managed) && DistinctMemberCards(WantedIn(y))
  }

  lemma CalmIsSteady(y: Round, p: Session, s': Session)
    requires Calm(y, p, s')
    ensures Steady(RunOf(p, y.d), y.f, p, Tasks(y.d))
    ensures Good(RunOf(p, y.d), s') && Numbered(s', AddedBy(Tasks(y.d)))
    ensures CardTokens(s'.ctl) == CardTokens(p.ctl)
  {
    RunEnds(y, p, s');
    CardListFixed(RunOf(p, y.d), y.f, p, Tasks(y.d), |Tasks(y.d)|);
    AtEnd(y.f, p, Tasks(y.d));
  }

  /** A card with a token in the list belongs to one number only. */
  lemma TokenNumber(c: State, n: CardId, n': CardId)
    requires WellFormed(c) && n in CardTokens(c) && n' in CardTokens(c) && CardTokens(c)[n] == CardTokens(c)[n']
    ensures n == n'
  {
    var cache := Cache(map[], map[], Some(CardTokens(c)), CardNumbers(c), map[]);
    ControllerIndexes(cache, c);
  }

  lemma NumberOfToken(c: State, n: CardId)
    requires WellFormed(c) && n in CardTokens(c)
    ensures Lookup(CardNumbers(c), CardTokens(c)[n]) == Some(n)
  {
    var cache := Cache(map[], map[], Some(CardTokens(c)), CardNumbers(c), map[]);
    ControllerIndexes(cache, c);
  }

  /** What another member is to be given is not card `n`. */
  lemma OtherToken(y: Round, p: Session, s': Session, w: ResolvedMember, k: ContactId, t: Token)
    requires Calm(y, p, s') && w in Writers(y.d) && w.contact != k
    requires var wanted := WantedIn(y); WantsDoor(k, wanted) && wanted[k].card.Some?
    requires var n := WantedIn(y)[k].card.value;
      n in CardTokens(y.s.ctl) && CardTokens(y.s.ctl)[n] == t && t in y.s.ctl.bound
    ensures WantedToken(RunOf(p, y.d).cache0, w.card) != Some(t)
  {
    CalmIsSteady(y, p, s');
    WritersAreMembers(y.members, UsersIn(y), y.d, w);
    if w.card.Some? {
      WriterToken(y, p, s', w);
      if w.card.value in CardTokens(y.s.ctl) && CardTokens(y.s.ctl)[w.card.value] == t {
        TokenNumber(y.s.ctl, w.card.value, WantedIn(y)[k].card.value);
      }
    }
  }

  /** The entry puts the card of member `r`, shown as `u`, in order. */
  predicate BringsCard(t: Task, r: ResolvedMember, u: UnifiUser) {
    t == Add(r) || (t == Credential(Pair(r, u)) && r.card != u.card)
  }

  lemma ReleasedByEntry(x: Run, f: Faults, s: Session, ts: seq<Task>, i: nat, r: ResolvedMember, u: UnifiUser)
    requires Steady(x, f, s, ts) && i < |ts| && r.contact in x.cache0.userIds && BringsCard(ts[i], r, u)
    ensures HoldsAtMost(RunTasks(f, s, ts).ctl, x.cache0.userIds[r.contact], WantedToken(x.cache0, r.card))
  {
    Released(x, f, s, ts, i, r);
  }

  /** A member whose card entry ran does not keep another member's card. */
  lemma ReleasedByMember(y: Round, p: Session, s': Session, j: ContactId, k: ContactId, t: Token)
    requires Calm(y, p, s') && j != k
    requires var wanted := WantedIn(y); WantsDoor(j, wanted) && WantsDoor(k, wanted) && wanted[k].card.Some?
    requires var n := WantedIn(y)[k].card.value;
      n in CardTokens(y.s.ctl) && CardTokens(y.s.ctl)[n] == t && t in y.s.ctl.bound
    requires j in y.s.cache.userIds && Holds(y.s.ctl, y.s.cache.userIds[j], t)
    ensures !Holds(s'.ctl, y.s.cache.userIds[j], t)
  {
    var wanted, present := WantedIn(y), PresentIn(y);
    CalmIsSteady(y, p, s');
    CardEntry(y, j, k, t);
    var ts, x := Tasks(y.d), RunOf(p, y.d);
    var i :| 0 <= i < |ts| && BringsCard(ts[i], wanted[j], present[j]);
    ReleasedByEntry(x, y.f, p, ts, i, wanted[j], present[j]);
    OtherToken(y, p, s', wanted[j], k, t);
  }

  /** A member holding another member's card has an entry that changes its card. */
  lemma CardEntry(y: Round, j: ContactId, k: ContactId, t: Token)
    requires Started(y) && DistinctMemberCards(WantedIn(y)) && j != k
    requires var wanted := WantedIn(y); WantsDoor(j, wanted) && WantsDoor(k, wanted) && wanted[k].card.Some?
    requires var n := WantedIn(y)[k].card.value; n in CardTokens(y.s.ctl) && CardTokens(y.s.ctl)[n] == t
    requires j in y.s.cache.userIds && Holds(y.s.ctl, y.s.cache.userIds[j], t)
    ensures var wanted, present := WantedIn(y), PresentIn(y);
            var ts := Tasks(y.d);
      && wanted[j].contact == j && wanted[j] in Writers(y.d) && j in present
      && exists i :: 0 <= i < |ts| && BringsCard(ts[i], wanted[j], present[j])
  {
    var users := UsersIn(y);
    var wanted, present := WantedIn(y), IndexPresent(users);
    KnownIsShown(y, j);
    WantedByContact(y.members);
    Reported(y.members, users, y.d);
    EntryPlaces(y.d);
    if present[j].active {
      NumberOfToken(y.s.ctl, wanted[k].card.value);
      assert present[j].card == wanted[k].card;
      assert Pair(wanted[j], present[j]) in y.d.toUpdateCredential;
      IsWriter(y.d, wanted[j]);
      assert Credential(Pair(wanted[j], present[j])) in Tasks(y.d);
    } else {
      IsWriter(y.d, wanted[j]);
      assert Add(wanted[j]) in Tasks(y.d);
    }
  }

  /** A token of the run is wanted only by the member whose card it is. */
  lemma WanterOfToken(y: Round, p: Session, s': Session, j: ContactId, k: ContactId, t: Token)
    requires Calm(y, p, s') && Wants(RunOf(p, y.d), j, t)
    requires var wanted := WantedIn(y); WantsDoor(k, wanted) && wanted[k].card.Some?
    requires var n := WantedIn(y)[k].card.value; n in CardTokens(p.ctl) && CardTokens(p.ctl)[n] == t
    ensures j == k
  {
    var x := RunOf(p, y.d);
    var i :| 0 <= i < |x.writers| && x.writers[i].contact == j && TokenOf(x, x.writers[i]) == Some(t);
    WritersAreMembers(y.members, UsersIn(y), y.d, x.writers[i]);
    TokenNumber(p.ctl, x.writers[i].card.value, WantedIn(y)[k].card.value);
  }

  /** A holder who got the card in this run is the member it is for. */
  lemma EntitledHolder(y: Round, p: Session, s': Session, k: ContactId, v: UserId)
    requires Calm(y, p, s')
    requires var wanted := WantedIn(y); WantsDoor(k, wanted) && wanted[k].card.Some?
    requires var n := WantedIn(y)[k].card.value;
             n in CardTokens(s'.ctl) && Entitled(RunOf(p, y.d), s'.cache.userIds, v, CardTokens(s'.ctl)[n])
    ensures v in s'.ctl.users && s'.ctl.users[v].employee == Some(k)
  {
    CalmIsSteady(y, p, s');
    var t := CardTokens(s'.ctl)[WantedIn(y)[k].card.value];
    var j :| j in s'.cache.userIds && s'.cache.userIds[j] == v && Wants(RunOf(p, y.d), j, t);
    WanterOfToken(y, p, s', j, k, t);
  }

  /** Contact `k`'s own user keeps carrying its number. */
  lemma OwnUser(y: Round, p: Session, s': Session, k: ContactId, v: UserId)
    requires Calm(y, p, s') && k > 0 && v in y.s.ctl.users && y.s.ctl.users[v].employee == Some(k)
    ensures IsKnownAs(y.s, v, k)
    ensures v in s'.ctl.users && s'.ctl.users[v].employee == Some(k)
  {
    CalmIsSteady(y, p, s');
    FetchAgrees(y.s.cache, y.s.ctl, y.rows, y.cfg.managed);
    assert Managed(y.s.ctl.users[v].employee);
  }

  /** An account known as disabled is still disabled at the end, or it released the card. */
  lemma DisabledHolder(y: Round, p: Session, s': Session, k: ContactId, v: UserId, t: Token)
    requires Calm(y, p, s')
    requires var wanted := WantedIn(y); WantsDoor(k, wanted) && wanted[k].card.Some?
    requires var n := WantedIn(y)[k].card.value; n in CardTokens(y.s.ctl) && CardTokens(y.s.ctl)[n] == t
    requires v in y.s.ctl.users && Holds(y.s.ctl, v, t)
    requires IsDisabled(y.s.ctl.users[v].status) && y.s.ctl.users[v].employee != Some(k)
    requires Holds(s'.ctl, v, t)
    ensures var c' := s'.ctl; v in c'.users && IsDisabled(c'.users[v].status)
  {
    CalmIsSteady(y, p, s');
    FetchAgrees(y.s.cache, y.s.ctl, y.rows, y.cfg.managed);
    var x, ts := RunOf(p, y.d), Tasks(y.d);
    forall i | 0 <= i < |ts| && ts[i].Add? ensures !IsKnownAs(p, v, TaskContact(ts[i])) {
      AddsAreMembers(y, ts[i]);
      if IsKnownAs(y.s, v, TaskContact(ts[i])) {
        ReleasedByMember(y, p, s', TaskContact(ts[i]), k, t);
      }
    }
    StatusOf(x, y.f, p, ts, |ts|, v);
    AtEnd(y.f, p, ts);
    DeactivatedIsDisabled();
  }

  lemma AddsAreMembers(y: Round, t: Task)
    requires Started(y) && t in Tasks(y.d) && t.Add?
    ensures WantsDoor(TaskContact(t), WantedIn(y))
  {
    EntryPlaces(y.d);
    Reported(y.members, UsersIn(y), y.d);
  }

  lemma DepartedHolder(y: Round, p: Session, s': Session, j: ContactId)
    requires Calm(y, p, s') && j in y.s.cache.userIds
    requires Deactivates(j, WantedIn(y), PresentIn(y))
    ensures var c' := s'.ctl; var u := y.s.cache.userIds[j];
            u in c'.users && IsDisabled(c'.users[u].status)
  {
    var users := UsersIn(y);
    CalmIsSteady(y, p, s');
    Reported(y.members, users, y.d);
    PresentByContact(users);
    EntryPlaces(y.d);
    var i := SoleEntry(Tasks(y.d), Deactivate(IndexPresent(users)[j]));
    DeactivatedAtEnd(RunOf(p, y.d), y.f, p, Tasks(y.d), i);
    DeactivatedIsDisabled();
  }

  /** A holder from before the cycle, in scope, who still has the card. */
  lemma FormerHolder(y: Round, p: Session, s': Session, k: ContactId, v: UserId, t: Token)
    requires Calm(y, p, s')
    requires AllInScope(y.s.ctl, y.members, PresentIn(y))
    requires var wanted := WantedIn(y); WantsDoor(k, wanted) && wanted[k].card.Some?
    requires var n := WantedIn(y)[k].card.value; n in CardTokens(y.s.ctl) && CardTokens(y.s.ctl)[n] == t
    requires v in y.s.ctl.users && Holds(y.s.ctl, v, t) && Holds(s'.ctl, v, t)
    ensures var c' := s'.ctl;
            v in c'.users && (c'.users[v].employee == Some(k) || IsDisabled(c'.users[v].status))
  {
    var wanted, present := WantedIn(y), PresentIn(y);
    var e := y.s.ctl.users[v].employee;
    assert InScope(y.s.ctl, wanted, present, k, wanted[k].card.value);
    if e == Some(k) {
      OwnUser(y, p, s', k, v);
    } else if IsDisabled(y.s.ctl.users[v].status) {
      DisabledHolder(y, p, s', k, v, t);
    } else {
      OwnUser(y, p, s', e.value, v);
      if WantsDoor(e.value, wanted) {
        ReleasedByMember(y, p, s', e.value, k, t);
      } else {
        DepartedHolder(y, p, s', e.value);
      }
    }
  }

  lemma FreedForMember(y: Round, p: Session, s': Session, k: ContactId)
    requires Calm(y, p, s')
    requires AllInScope(y.s.ctl, y.members, PresentIn(y))
    requires var wanted := WantedIn(y); WantsDoor(k, wanted) && wanted[k].card.Some?
    ensures Free(s'.ctl, k, WantedIn(y)[k].card.value)
  {
    CalmIsSteady(y, p, s');
    var n := WantedIn(y)[k].card.value;
    if n in CardTokens(s'.ctl) && CardTokens(s'.ctl)[n] in s'.ctl.bound {
      var t := CardTokens(s'.ctl)[n];
      var v := s'.ctl.bound[t];
      if Entitled(RunOf(p, y.d), s'.cache.userIds, v, t) {
        EntitledHolder(y, p, s', k, v);
      } else {
        assert Holds(y.s.ctl, v, t);
        FormerHolder(y, p, s', k, v, t);
      }
    }
  }

  /** After a first cycle without request failures, no card is blocked. */
  lemma FirstCycleFrees(y: Round, p: Session, s': Session)
    requires Calm(y, p, s')
    requires AllInScope(y.s.ctl, y.members, PresentIn(y))
    ensures Unblocked(s'.ctl, y.members)
  {
    forall k | var wanted := WantedIn(y); WantsDoor(k, wanted) && wanted[k].card.Some?
      ensures Free(s'.ctl, k, WantedIn(y)[k].card.value)
    {
      FreedForMember(y, p, s', k);
    }
  }

  /** Every member with access is switched on, with its policy, and holds the card it wants and no other. */
  ghost predicate Converged(present: Present, wanted: Wanted) {
    forall k :: WantsDoor(k, wanted) ==> Provided(present, k, wanted[k])
  }

  predicate Provided(present: Present, k: ContactId, r: ResolvedMember) {
    k in present && present[k].active && present[k].card == r.card && present[k].policy == r.policy
  }

  // ---- the second cycle ----

  /** Members with access have a name, and their cards fit in a Wiegand card number. */
  ghost predicate MembersFit(wanted: Wanted) {
    forall k :: WantsDoor(k, wanted) ==>
      wanted[k].name != "" && (wanted[k].card.Some? ==> 0 <= wanted[k].card.value <= MAX_CARD)
  }

  /** For such members with different cards the guards on cards let every difference pass. */
  lemma DifferenceIsGuarded(members: seq<ResolvedMember>, users: seq<UnifiUser>, d: Diff)
    requires IsDiff(members, users, d) && forall k :: !IsUnmapped(k, IndexWanted(members))
    requires DistinctMemberCards(IndexWanted(members)) && MembersFit(IndexWanted(members))
    ensures Guarded(d)
  {
    var ws := Writers(d);
    Reported(members, users, d);
    SomeElement(d.unmapped);
    DiffWritesOnce(members, users, d);
    forall i | 0 <= i < |ws|
      ensures WantsDoor(ws[i].contact, IndexWanted(members)) && IndexWanted(members)[ws[i].contact] == ws[i]
    {
      WritersAreMembers(members, users, d, ws[i]);
    }
  }

  /** Without faults an apply leaves a sound controller. */
  lemma FaultlessIsSound(y: Round)
    requires Started(y) && NoFaults(y.f)
    ensures Sound(Applied(y).s.ctl)
  {
    ApplyKeepsSound(y);
    UniqueExactlyWhenOpenedOnce(y);
  }

  lemma SecondRoundStarts(y1: Round, y2: Round)
    requires Started(y1) && NoFaults(y1.f) && DistinctMemberCards(WantedIn(y1)) && MembersFit(WantedIn(y1))
    requires Compared(y2) && y2.members == y1.members && y2.s.ctl == Applied(y1).s.ctl
    ensures Started(y2)
  {
    FaultlessIsSound(y1);
    NobodyUnmapped(y1);
    DifferenceIsGuarded(y2.members, UsersIn(y2), y2.d);
  }

  /**
  Two cycles are enough. From any sound state in which every wanted card is free, or held by its own
  member, by a disabled account or by an account the cycle manages: run a first cycle in which no request
  fails (binds may be refused), fetch and compare again and run a second one. The guards on cards let it
  pass and it raises nothing; every later fetch shows each member with its own card and policy; and the
  next difference has nothing left but stuck names and emails.
  */
  lemma TwoCyclesConverge(y1: Round, y2: Round, rows3: seq<UserRow>, d3: Diff)
    requires Started(y1) && NoFaults(y1.f) && |y1.s.ctl.cards| < MAX_CARDS
    requires MembersOk(y1.members, y1.cfg.managed) && DistinctMemberCards(WantedIn(y1)) && MembersFit(WantedIn(y1))
    requires AllInScope(y1.s.ctl, y1.members, PresentIn(y1))
    requires Compared(y2) && NoFaults(y2.f) && |y2.s.ctl.cards| < MAX_CARDS
    requires y2.members == y1.members && y2.cfg == y1.cfg && y2.s.ctl == Applied(y1).s.ctl
    ensures Started(y2) && Applied(y2).out.Fine?
    ensures Lists(rows3, Applied(y2).s.ctl, y2.cfg.managed) ==>
      Converged(Next(rows3, Applied(y2).s.ctl, y2.cfg.managed), WantedIn(y2))
    ensures Lists(rows3, Applied(y2).s.ctl, y2.cfg.managed) &&
            IsDiff(y2.members, Fetched(rows3, Applied(y2).s.ctl, y2.cfg.managed), d3) ==>
      OnlyResidue(d3, iset k | Residual(k, WantedIn(y2), PresentIn(y2), Applied(y2).s.log, y2.s.cache.userIds))
  {
    SecondRoundStarts(y1, y2);
    ImportWorks(y1);
    AppliedIsRun(y1);
    FirstCycleFrees(y1, RunStart(y1).s, Applied(y1).s);
    SecondCycleSettles(y2);
    var s' := Applied(y2).s;
    if Lists(rows3, s'.ctl, y2.cfg.managed) {
      AppliedIsRun(y2);
      MembersConverge(y2, RunStart(y2).s, s', rows3);
      if IsDiff(y2.members, Fetched(rows3, s'.ctl, y2.cfg.managed), d3) {
        ApplyReachesFixedPoint(y2, rows3, d3);
      }
    }
  }

  lemma SecondCycleSettles(y: Round)
    requires Started(y) && NoFaults(y.f) && |y.s.ctl.cards| < MAX_CARDS
    requires MembersOk(y.members, y.cfg.managed) && Unblocked(y.s.ctl, y.members)
    ensures RunStart(y).out.Fine? && Applied(y).out.Fine? && NobodyTwice(y.f, Applied(y).s.log)
    ensures UniqueContacts(Applied(y).s.ctl)
  {
    ImportWorks(y);
    AppliedIsRun(y);
    UnblockedGoesThrough(y, RunStart(y).s, Applied(y).s);
    UniqueExactlyWhenOpenedOnce(y);
  }

  lemma MembersConverge(y: Round, p: Session, s': Session, rows': seq<UserRow>)
    requires WentThrough(y, p, s') && MembersOk(y.members, y.cfg.managed) && Lists(rows', s'.ctl, y.cfg.managed)
    requires UniqueContacts(s'.ctl)
    ensures Converged(Next(rows', s'.ctl, y.cfg.managed), WantedIn(y))
  {
    var present', wanted := Next(rows', s'.ctl, y.cfg.managed), WantedIn(y);
    forall k | WantsDoor(k, wanted) ensures Provided(present', k, wanted[k]) {
      MemberConverges(y, p, s', rows', k);
    }
  }

  lemma MemberConverges(y: Round, p: Session, s': Session, rows': seq<UserRow>, k: ContactId)
    requires WentThrough(y, p, s') && MembersOk(y.members, y.cfg.managed) && Lists(rows', s'.ctl, y.cfg.managed)
    requires UniqueContacts(s'.ctl) && WantsDoor(k, WantedIn(y))
    ensures Provided(Next(rows', s'.ctl, y.cfg.managed), k, WantedIn(y)[k])
  {
    UniqueIsNotDoubled(s'.ctl);
    MemberSettles(y, p, s', rows', k);
  }
}
