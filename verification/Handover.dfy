/**
Cards of departing members are free for others in the same cycle, because deactivations come first:
one cycle is enough when every wanted card is free, held by its own member or a disabled account, or
held by an account that this very cycle deactivates.
*/
module Handover {
  import opened Models
  import opened Controller
  import opened Protocol
  import opened Safety
  import opened Reconciler
  import opened Snapshot
  import opened CardIndex
  import opened Effects
  import opened ForceBind
  import opened CardProtocol
  import opened Cycle
  import opened Isolation
  import opened Soundness
  import opened Refinement
  import opened Fluency
  import opened Release
  import opened Convergence

  /** The card can be bound when its turn comes, unless one of the leaving contacts still holds it. */
  ghost predicate LaterFor(s: Session, w: ResolvedMember, leaving: set<ContactId>) {
    w.card.Some? ==>
      var wanted := WantedToken(s.cache, w.card);
      wanted.Some? && wanted.value < s.ctl.nextToken &&
      (BindableFor(s, w.contact, wanted.value) || HeldByOne(s, wanted.value, leaving))
  }

  ghost predicate HeldByOne(s: Session, t: Token, leaving: set<ContactId>) {
    t in s.ctl.bound && exists j :: j in leaving && IsKnownAs(s, s.ctl.bound[t], j)
  }

  ghost predicate AllLater(x: Run, s: Session, leaving: set<ContactId>) {
    forall w :: w in x.writers ==> LaterFor(s, w, leaving)
  }

  /** Without faults a deactivation goes through and leaves its user only cards meant for that user. */
  lemma DeactivationFrees(x: Run, f: Faults, swept: set<ContactId>, s: Session, k: ContactId)
    requires RunOk(x) && Tidy(x, f, swept, s) && NoFaults(f) && k in s.cache.userIds && k !in swept
    ensures var u := s.cache.userIds[k]; var r := DeactivateUser(f, s, k, u);
      r.out.Fine? && forall t :: Holds(r.s.ctl, u, t) ==> Entitled(x, s.cache.userIds, u, t)
  {
    var u := s.cache.userIds[k];
    var tokens := CachedCards(s.cache, k);
    OwnSweepWorks(x, f, swept, s, k, s, None);
    SweepEffect(f, s, u, tokens, None);
    forall t | Holds(s.ctl, u, t) && t !in tokens ensures Entitled(x, s.cache.userIds, u, t) {
      assert Holds(x.c0, u, t) ==> k in x.cache0.userIds;
    }
  }

  /** One departure later, its user blocks nobody. */
  lemma DepartureStep(x: Run, f: Faults, swept: set<ContactId>, s: Session, t: Task, leaving: set<ContactId>)
    requires RunOk(x) && Tidy(x, f, swept, s) && NoFaults(f) && t.Deactivate? && TaskContact(t) !in swept
    requires AllLater(x, s, leaving)
    ensures var s' := RunTask(f, s, t);
      s'.failures == s.failures && AllLater(x, s', leaving - {TaskContact(t)})
  {
    var k := TaskContact(t);
    var s' := RunTask(f, s, t);
    if k in s.cache.userIds {
      var u := s.cache.userIds[k];
      DeactivationFrees(x, f, swept, s, k);
      DeactivateEffect(f, s, k, u);
      forall w | w in x.writers ensures LaterFor(s', w, leaving - {k}) {
        DepartureSpares(x, s, s', k, u, w, leaving);
      }
    } else {
      forall w | w in x.writers ensures LaterFor(s', w, leaving - {k}) {
        assert LaterFor(s, w, leaving);
      }
    }
  }

  lemma DepartureSpares(x: Run, s: Session, s': Session, k: ContactId, u: UserId, w: ResolvedMember,
                        leaving: set<ContactId>)
    requires RunOk(x) && Good(x, s) && w in x.writers && IsKnownAs(s, u, k) && Touches(s, s', u, None)
    requires forall t :: Holds(s'.ctl, u, t) ==> Holds(s.ctl, u, t) && Entitled(x, s.cache.userIds, u, t)
    requires LaterFor(s, w, leaving)
    ensures LaterFor(s', w, leaving - {k})
  {
    DeactivatedIsDisabled();
    if w.card.Some? {
      var t := WantedToken(s.cache, w.card).value;
      assert Wants(x, w.contact, t);
      if t in s'.ctl.bound {
        var v := s'.ctl.bound[t];
        assert Holds(s'.ctl, v, t) && Holds(s.ctl, v, t);
        if v == u {
          var j :| j in s.cache.userIds && s.cache.userIds[j] == u && Wants(x, j, t);
          WanterIsUnique(x, j, w.contact, t);
        } else if j :| j in leaving && IsKnownAs(s, v, j) {
          assert j in leaving - {k} && IsKnownAs(s', v, j);
        }
      }
    }
  }

  function Contacts(ts: seq<Task>): set<ContactId> {
    set i | 0 <= i < |ts| :: TaskContact(ts[i])
  }

  /** The deactivations go through one by one; who has not left yet is among the remaining ones. */
  lemma {:induction false} Departures(x: Run, f: Faults, s: Session, ts: seq<Task>, n: nat, leaving: set<ContactId>)
    requires Underway(x, s, ts) && SweepsDisjoint(ts) && Tidy(x, f, {}, s) && NoFaults(f) && n <= |ts|
    requires forall i :: 0 <= i < n ==> ts[i].Deactivate?
    requires AllLater(x, s, leaving)
    ensures At(f, s, ts, n).failures == s.failures
    ensures AllLater(x, At(f, s, ts, n), leaving - Contacts(ts[..n]))
  {
    if n == 0 {
      assert ts[..0] == [];
      assert leaving - Contacts(ts[..0]) == leaving;
    } else {
      var m := n - 1;
      Departures(x, f, s, ts, m, leaving);
      TidyAt(x, f, s, ts, m);
      NotSweptYet(ts, m);
      AtNext(f, s, ts, m);
      DepartureStep(x, f, SweptBy(ts[..m]), At(f, s, ts, m), ts[m], leaving - Contacts(ts[..m]));
      assert leaving - Contacts(ts[..n]) == leaving - Contacts(ts[..m]) - {TaskContact(ts[m])} by {
        assert forall i :: 0 <= i < m ==> ts[..n][i] == ts[..m][i];
        assert ts[..n][m] == ts[m];
      }
    }
  }

  lemma NobodyLeaving(x: Run, s: Session)
    requires AllLater(x, s, {})
    ensures AllClear(x, s)
  {
    forall w | w in x.writers ensures ClearFor(s, w) {
      assert LaterFor(s, w, {});
    }
  }

  // ---- one cycle ----

  /** Card `n` is free for contact `k`, or its holder is deactivated in this cycle. */
  ghost predicate FreeOrLeaving(c: State, wanted: Wanted, present: Present, k: ContactId, n: CardId) {
    n in CardTokens(c) && CardTokens(c)[n] in c.bound && c.bound[CardTokens(c)[n]] in c.users ==>
      var holder := c.users[c.bound[CardTokens(c)[n]]];
      || holder.employee == Some(k) || IsDisabled(holder.status)
      || (Managed(holder.employee) && Deactivates(holder.employee.value, wanted, present))
  }

  ghost predicate AllFreeOrLeaving(c: State, wanted: Wanted, present: Present) {
    forall k :: WantsDoor(k, wanted) && wanted[k].card.Some? ==>
      FreeOrLeaving(c, wanted, present, k, wanted[k].card.value)
  }

  lemma DeactivationsFirst(d: Diff)
    ensures forall i :: 0 <= i < |d.toDeactivate| ==> Tasks(d)[i] == Deactivate(d.toDeactivate[i])
    ensures Tasks(d)[..|d.toDeactivate|] == Deactivations(d)
  {
  }

  /** Every contact the cycle deactivates has its entry among the first. */
  lemma LeavingContacts(y: Round, j: ContactId)
    requires Started(y) && Deactivates(j, WantedIn(y), PresentIn(y))
    ensures j in Contacts(Deactivations(y.d))
  {
    Reported(y.members, UsersIn(y), y.d);
    PresentByContact(UsersIn(y));
    var e := PresentIn(y)[j];
    var i :| 0 <= i < |y.d.toDeactivate| && y.d.toDeactivate[i] == e;
    assert TaskContact(Deactivations(y.d)[i]) == j;
  }

  /** The import leaves holders, users and bindings as they were. */
  ghost predicate SameHolders(s: Session, p: Session) {
    p.ctl.bound == s.ctl.bound && p.ctl.users == s.ctl.users &&
    p.cache.userIds == s.cache.userIds && p.cache.holders == s.cache.holders
  }

  lemma TokenIsLater(y: Round, p: Session, k: ContactId, n: CardId, t: Token)
    requires Started(y) && Agrees(y.s.cache, y.s.ctl) && SameHolders(y.s, p) && k > 0
    requires FreeOrLeaving(y.s.ctl, WantedIn(y), PresentIn(y), k, n)
    requires if n in CardTokens(y.s.ctl) then t == CardTokens(y.s.ctl)[n] else t >= y.s.ctl.nextToken
    ensures BindableFor(p, k, t) || HeldByOne(p, t, Contacts(Deactivations(y.d)))
  {
    if t in p.ctl.bound {
      var v := p.ctl.bound[t];
      var e := y.s.ctl.users[v].employee;
      assert Managed(Some(k));
      if Managed(e) && Deactivates(e.value, WantedIn(y), PresentIn(y)) {
        LeavingContacts(y, e.value);
        assert IsKnownAs(p, v, e.value);
      }
    }
  }

  lemma WriterIsLater(y: Round, p: Session, s': Session, w: ResolvedMember)
    requires Ran(y, p, s') && MembersOk(y.members, y.cfg.managed) && w in Writers(y.d)
    requires AllFreeOrLeaving(y.s.ctl, WantedIn(y), PresentIn(y))
    ensures LaterFor(p, w, Contacts(Deactivations(y.d)))
  {
    if w.card.Some? {
      WriterToken(y, p, s', w);
      WritersAreMembers(y.members, UsersIn(y), y.d, w);
      TokenIsLater(y, p, w.contact, w.card.value, WantedToken(p.cache, w.card).value);
    }
  }

  /** After the deactivations no card is blocked, so the rest of the run goes through. */
  lemma HandoverRun(y: Round, p: Session, s': Session)
    requires Ran(y, p, s') && NoFaults(y.f) && AllLater(RunOf(p, y.d), p, Contacts(Deactivations(y.d)))
    ensures s'.failures == []
  {
    var x, ts, n := RunOf(p, y.d), Tasks(y.d), |y.d.toDeactivate|;
    DeactivationsFirst(y.d);
    var leaving := Contacts(Deactivations(y.d));
    Departures(x, y.f, p, ts, n, leaving);
    assert leaving - Contacts(ts[..n]) == {};
    NobodyLeaving(x, At(y.f, p, ts, n));
    RunWorks(x, y.f, p, ts, n, |ts|);
    AtEnd(y.f, p, ts);
  }

  /**
  Handover in one cycle: without request failures, an apply raises nothing as long as every wanted card is
  free, held by its own member or by a disabled account, or held by an account this cycle deactivates.
  */
  lemma OneCycleHandover(y: Round)
    requires Started(y) && NoFaults(y.f) && |y.s.ctl.cards| < MAX_CARDS && MembersOk(y.members, y.cfg.managed)
    requires AllFreeOrLeaving(y.s.ctl, WantedIn(y), PresentIn(y))
    ensures Applied(y).out.Fine?
  {
    ImportWorks(y);
    AppliedIsRun(y);
    var p, s' := RunStart(y).s, Applied(y).s;
    forall w | w in Writers(y.d) ensures LaterFor(p, w, Contacts(Deactivations(y.d))) {
      WriterIsLater(y, p, s', w);
    }
    HandoverRun(y, p, s');
  }

  // ---- departed members keep nothing ----

  lemma NothingToWant(y: Round, x: Run, j: ContactId)
    requires Started(y) && x.writers == Writers(y.d) && Deactivates(j, WantedIn(y), PresentIn(y))
    ensures forall t :: !Wants(x, j, t)
  {
    forall i | 0 <= i < |x.writers| ensures x.writers[i].contact != j {
      WritersAreMembers(y.members, UsersIn(y), y.d, x.writers[i]);
    }
  }

  lemma EmptiedAt(x: Run, f: Faults, s: Session, ts: seq<Task>, i: nat)
    requires Steady(x, f, s, ts) && i < |ts| && ts[i].Deactivate? && TaskContact(ts[i]) in x.cache0.userIds
    requires forall t :: !Wants(x, TaskContact(ts[i]), t)
    ensures var c, u := At(f, s, ts, i + 1).ctl, x.cache0.userIds[TaskContact(ts[i])]; forall t :: !Holds(c, u, t)
  {
    var k := TaskContact(ts[i]);
    UserAt(x, f, s, ts, i, k);
    TidyAt(x, f, s, ts, i);
    NotSweptYet(ts, i);
    AtNext(f, s, ts, i);
    DeactivationFrees(x, f, SweptBy(ts[..i]), At(f, s, ts, i), k);
  }

  lemma DepartedEntry(y: Round, j: ContactId)
    requires Started(y) && Deactivates(j, WantedIn(y), PresentIn(y))
    ensures PresentIn(y)[j].contact == j && Deactivate(PresentIn(y)[j]) in Tasks(y.d) && j in y.s.cache.userIds
  {
    KnownIsShown(y, j);
    Reported(y.members, UsersIn(y), y.d);
    PresentByContact(UsersIn(y));
    EntryPlaces(y.d);
  }

  lemma DepartedInRun(y: Round, x: Run, p: Session, j: ContactId)
    requires Started(y) && Deactivates(j, WantedIn(y), PresentIn(y))
    requires AllNamed(Tasks(y.d)) && Steady(x, y.f, p, Tasks(y.d))
    requires x.writers == Writers(y.d) && x.cache0.userIds == y.s.cache.userIds
    ensures j in y.s.cache.userIds
    ensures var c, u := RunTasks(y.f, p, Tasks(y.d)).ctl, y.s.cache.userIds[j]; forall t :: !Holds(c, u, t)
  {
    DepartedEntry(y, j);
    NothingToWant(y, x, j);
    EmptiedForGood(x, y.f, p, Tasks(y.d), Deactivate(PresentIn(y)[j]));
  }

  lemma EmptiedForGood(x: Run, f: Faults, s: Session, ts: seq<Task>, e: Task)
    requires Steady(x, f, s, ts) && e in ts && e.Deactivate? && TaskContact(e) in x.cache0.userIds
    requires forall t :: !Wants(x, TaskContact(e), t)
    ensures var c, u := RunTasks(f, s, ts).ctl, x.cache0.userIds[TaskContact(e)]; forall t :: !Holds(c, u, t)
  {
    var i := SoleEntry(ts, e);
    EmptiedAt(x, f, s, ts, i);
    NoGains(x, f, s, ts, i + 1, |ts|, TaskContact(e));
    AtEnd(f, s, ts);
  }

  lemma RanIsSteady(y: Round, p: Session, s': Session)
    requires Ran(y, p, s') && NoFaults(y.f)
    ensures AllNamed(Tasks(y.d)) && Steady(RunOf(p, y.d), y.f, p, Tasks(y.d))
    ensures p.cache.userIds == y.s.cache.userIds && RunTasks(y.f, p, Tasks(y.d)) == s'
  {
  }

  /** Without faults a departed member holds no card at the end of the run. */
  lemma DepartedHoldNothing(y: Round, p: Session, s': Session, j: ContactId)
    requires Ran(y, p, s') && NoFaults(y.f) && Deactivates(j, WantedIn(y), PresentIn(y))
    ensures j in y.s.cache.userIds
    ensures var c, u := s'.ctl, y.s.cache.userIds[j]; forall t :: !Holds(c, u, t)
  {
    RanIsSteady(y, p, s');
    DepartedInRun(y, RunOf(p, y.d), p, j);
  }
}
