/**
The fixed point of the pipeline: after an apply that reports no failure, whatever was refused or
lost on the way, reading the controller again and comparing leaves nothing to do, except for names
that do not survive the write and emails that another account already has.
*/
module Refinement {
  import opened Models
  import opened Codec
  import opened Controller
  import opened Protocol
  import opened Safety
  import opened Reconciler
  import opened Snapshot
  import opened CardIndex
  import opened Effects
  import opened ForceBind
  import opened Frame
  import opened Cycle
  import opened Isolation
  import opened Soundness
  import opened Doubles
  import opened Accounts

  // ---- card numbers ----

  lemma {:induction false} OtherTokens(m: map<Token, CardId>, es: seq<Entry>, t: Token)
    requires forall e :: e in es ==> e.token != t
    ensures Lookup(IndexTokens(m, es), t) == Lookup(m, t)
  {
    if es != [] {
      var front := es[..|es| - 1];
      assert es == front + [es[|es| - 1]];
      OtherTokens(m, front, t);
    }
  }

  lemma {:induction false} NewEntries(rows: seq<CardRow>, first: Token)
    requires forall i :: 0 <= i < |rows| ==> rows[i].token >= first
    ensures forall e :: e in SyncEntries(rows) ==> e.token >= first
  {
    if rows != [] {
      NewEntries(rows[..|rows| - 1], first);
    }
  }

  /** Imports do not change the number of a card issued before. */
  lemma NumbersStay(c: State, c': State, t: Token)
    requires CardsExtend(c, c') && t < c.nextToken
    ensures Lookup(CardNumbers(c'), t) == Lookup(CardNumbers(c), t)
  {
    var added := c'.cards[|c.cards|..];
    assert c'.cards == c.cards + added;
    EntriesConcat(c.cards, added);
    IndexConcat(map[], map[], SyncEntries(c.cards), SyncEntries(added));
    NewEntries(added, c.nextToken);
    OtherTokens(CardNumbers(c), SyncEntries(added), t);
  }

  lemma {:induction false} CardListFixed(x: Run, f: Faults, s: Session, ts: seq<Task>, n: nat)
    requires Underway(x, s, ts) && n <= |ts|
    ensures At(f, s, ts, n).ctl.cards == s.ctl.cards
  {
    if n > 0 {
      CardListFixed(x, f, s, ts, n - 1);
      GoodAt(x, f, s, ts, n - 1);
      AtNext(f, s, ts, n - 1);
      StepGrows(x, f, At(f, s, ts, n - 1), ts[n - 1]);
    }
  }

  // ---- one apply without reported failure ----

  /** The members of the cycle have positive contacts, and their policies are door-sync's own. */
  ghost predicate MembersOk(members: seq<ResolvedMember>, managed: Option<set<string>>) {
    var wanted := IndexWanted(members);
    forall k :: WantsDoor(k, wanted) ==> k > 0 && (managed.None? || wanted[k].policy.value in managed.value)
  }

  /** A run in which no contact was reported: the apply raised nothing. */
  ghost predicate WentThrough(y: Round, p: Session, s': Session) {
    Ran(y, p, s') && s'.failures == []
  }

  /** The facts every case below starts from. */
  lemma EntriesWentThrough(x: Run, f: Faults, s: Session, ts: seq<Task>)
    requires Underway(x, s, ts) && s.failures == [] && RunTasks(f, s, ts).failures == []
    ensures forall i :: 0 <= i < |ts| ==> !Fails(f, s, ts, i)
    ensures RunTasks(f, s, ts).ctl.cards == s.ctl.cards
  {
    CardListFixed(x, f, s, ts, |ts|);
    AtEnd(f, s, ts);
    forall i | 0 <= i < |ts| ensures !Fails(f, s, ts, i) {
      NoneFailed(x, f, s, ts, i);
    }
  }

  lemma RunFacts(y: Round, p: Session, s': Session)
    requires WentThrough(y, p, s')
    ensures forall i :: 0 <= i < |Tasks(y.d)| ==> !Fails(y.f, p, Tasks(y.d), i)
    ensures forall k :: !EmailRefused(p.log, y.s.cache.userIds, k)
    ensures s'.ctl.cards == p.ctl.cards
  {
    EntriesWentThrough(RunOf(p, y.d), y.f, p, Tasks(y.d));
  }

  // ---- what the next fetch shows ----

  /** The users the next fetch returns. */
  function Next(rows': seq<UserRow>, c: State, managed: Option<set<string>>): Present {
    IndexPresent(Fetched(rows', c, managed))
  }

  lemma Observe(y: Round, p: Session, s': Session, rows': seq<UserRow>, k: ContactId)
    requires WentThrough(y, p, s') && Lists(rows', s'.ctl, y.cfg.managed)
    ensures var c' := s'.ctl; var present' := Next(rows', c', y.cfg.managed);
      && (k in present' ==>
            k > 0 && exists u :: u in c'.users && Appears(present'[k], c', u, y.cfg.managed) &&
                                 c'.users[u].employee == Some(k))
      && (forall u :: u in c'.users && c'.users[u].employee == Some(k) && k > 0 ==>
            k in present' && (!Doubled(c', k) ==> Appears(present'[k], c', u, y.cfg.managed)))
  {
    FetchShowsOne(rows', s'.ctl, y.cfg.managed, k);
  }

  /** The card a user was given is read back as the member's card. */
  lemma CardReadsBack(y: Round, p: Session, s': Session, r: ResolvedMember, u: UserId, shown: Option<CardId>)
    requires WentThrough(y, p, s') && r in Writers(y.d)
    requires var c' := s'.ctl;
             HoldsExactly(c', u, WantedToken(p.cache, r.card)) && CardShown(shown, c', u)
    ensures shown == r.card
  {
    RunFacts(y, p, s');
    var c' := s'.ctl;
    assert Writers(y.d) != [];
    ControllerIndexes(p.cache, p.ctl);
    if r.card.Some? {
      WritersHaveTokens(y, p, s', r);
      var t := WantedToken(p.cache, r.card).value;
      assert Holds(c', u, t);
      assert Lookup(CardNumbers(c'), t) == r.card;
    }
  }

  lemma SameCardShown(c: State, c': State, u: UserId, before: Option<CardId>, after: Option<CardId>)
    requires OneCardEach(c) && SameCards(c, c', u) && CardShown(before, c, u) && CardShown(after, c', u)
    requires forall t :: Holds(c, u, t) ==> Lookup(CardNumbers(c'), t) == Lookup(CardNumbers(c), t)
    ensures after == before
  {
  }

  /** Cards issued before the run keep their number. */
  lemma NumbersKept(c: State, p: State, c': State)
    requires CardsExtend(c, p) && c'.cards == p.cards
    ensures forall t: Token :: t < c.nextToken ==> Lookup(CardNumbers(c'), t) == Lookup(CardNumbers(c), t)
  {
    forall t: Token | t < c.nextToken ensures Lookup(CardNumbers(c'), t) == Lookup(CardNumbers(c), t) {
      NumbersStay(c, p, t);
    }
  }

  /** A user whose cards did not change is read with the same card. */
  lemma CardReadsSame(c: State, p: State, c': State, u: UserId, before: Option<CardId>, after: Option<CardId>)
    requires WellFormed(c) && OneCardEach(c) && CardsExtend(c, p) && c'.cards == p.cards
    requires SameCards(c, c', u) && CardShown(before, c, u) && CardShown(after, c', u)
    ensures after == before
  {
    NumbersKept(c, p, c');
    SameCardShown(c, c', u, before, after);
  }

  // ---- the two residues ----

  /** The name is written in this cycle and does not survive it. */
  ghost predicate NameStuck(k: ContactId, wanted: Wanted, present: Present)
    requires k in wanted
  {
    var name := wanted[k].name;
    name != "" && (IsActive(k, present) ==> present[k].name != name) && !NameRoundTrips(name)
  }

  function EmailSeen(k: ContactId, present: Present): Option<string> {
    if k in present then present[k].email else None
  }

  /** The email differed, and was refused because it is registered to another account. */
  ghost predicate EmailStuck(k: ContactId, wanted: Wanted, present: Present, log: seq<Event>,
                             ids: map<ContactId, UserId>)
    requires k in wanted
  {
    EmailRefused(log, ids, k) && EmailDiffers(wanted[k].email, EmailSeen(k, present))
  }

  /** The member is as wanted, but for a stuck name or email. */
  ghost predicate Settled(x: UnifiUser, r: ResolvedMember, nameStuck: bool, emailStuck: bool) {
    && x.active && x.policy == r.policy && x.card == r.card
    && (x.name != r.name <==> nameStuck)
    && (EmailDiffers(r.email, x.email) <==> emailStuck)
  }

  ghost predicate SettledIn(y: Round, p: Session, s': Session, rows': seq<UserRow>, k: ContactId)
    requires k in WantedIn(y)
  {
    var wanted, present := WantedIn(y), PresentIn(y);
    var present' := Next(rows', s'.ctl, y.cfg.managed);
    k in present' &&
    Settled(present'[k], wanted[k], NameStuck(k, wanted, present),
            EmailStuck(k, wanted, present, s'.log, y.s.cache.userIds))
  }

  // ---- records ----

  /** The record is as wanted, but for a stuck name or email. */
  ghost predicate RecordSettled(record: UserRecord, r: ResolvedMember, managed: Option<set<string>>, nameStuck: bool,
                                emailStuck: bool) {
    && record.status == ACTIVE
    && FirstOf(ManagedOf(record.policies, managed)) == r.policy
    && (JoinName(record.first, record.last) != r.name <==> nameStuck)
    && (EmailDiffers(r.email, ShownEmail(record.email)) <==> emailStuck)
  }

  predicate PolicyOk(r: ResolvedMember, managed: Option<set<string>>) {
    r.policy.Some? && (managed.None? || r.policy.value in managed.value)
  }

  function LessEmail(fields: Fields, refused: bool): Fields {
    if refused then fields.(email := None) else fields
  }

  lemma ReactivationSettles(before: UserRecord, r: ResolvedMember, managed: Option<set<string>>, refused: bool)
    requires r.name != "" && PolicyOk(r, managed)
    ensures SwitchedOn(Written(before, LessEmail(ReactivationFields(r), refused)), r.policy).employee == Some(r.contact)
    ensures RecordSettled(SwitchedOn(Written(before, LessEmail(ReactivationFields(r), refused)), r.policy), r, managed,
                          !NameRoundTrips(r.name), refused && EmailDiffers(r.email, ShownEmail(before.email)))
  {
  }

  lemma CreationSettles(r: ResolvedMember, managed: Option<set<string>>, refused: bool)
    requires r.name != "" && PolicyOk(r, managed)
    ensures SwitchedOn(Written(NEW_USER, LessEmail(CreationFields(r), refused)), r.policy).employee == Some(r.contact)
    ensures RecordSettled(SwitchedOn(Written(NEW_USER, LessEmail(CreationFields(r), refused)), r.policy), r, managed,
                          !NameRoundTrips(r.name), refused && EmailDiffers(r.email, None))
  {
  }

  /** A settled record and the right card make a settled member. */
  lemma SettleFromRecord(y: Round, p: Session, s': Session, rows': seq<UserRow>, k: ContactId, u: UserId)
    requires WentThrough(y, p, s') && Lists(rows', s'.ctl, y.cfg.managed)
    requires k in WantedIn(y) && k > 0
    requires var c' := s'.ctl; !Doubled(c', k) && u in c'.users && c'.users[u].employee == Some(k)
    requires var wanted, present := WantedIn(y), PresentIn(y);
             RecordSettled(s'.ctl.users[u], wanted[k], y.cfg.managed, NameStuck(k, wanted, present),
                           EmailStuck(k, wanted, present, s'.log, y.s.cache.userIds))
    requires forall shown :: CardShown(shown, s'.ctl, u) ==> shown == WantedIn(y)[k].card
    ensures SettledIn(y, p, s', rows', k)
  {
    Observe(y, p, s', rows', k);
  }

  /** The known user of a contact is the one the first fetch showed. */
  lemma KnownIsShown(y: Round, k: ContactId)
    requires Started(y)
    ensures var present := PresentIn(y);
      && (k in y.s.cache.userIds <==> k in present)
      && (k in present ==> k > 0 && y.s.cache.userIds[k] in y.s.ctl.users &&
                           y.s.ctl.users[y.s.cache.userIds[k]].employee == Some(k) &&
                           Appears(present[k], y.s.ctl, y.s.cache.userIds[k], y.cfg.managed))
  {
    FetchAgrees(y.s.cache, y.s.ctl, y.rows, y.cfg.managed);
    FetchShows(y.rows, y.s.ctl, y.cfg.managed, k);
    if k in PresentIn(y) {
      var u :| u in y.s.ctl.users && y.s.ctl.users[u].employee == Some(k);
      assert Managed(y.s.ctl.users[u].employee);
    }
  }

  /** What was established of a member's account, and of its card, at the end of the run. */
  ghost predicate AccountOf(p: Session, s': Session, u: UserId, record: UserRecord, card: Option<CardId>) {
    && u in s'.ctl.users && s'.ctl.users[u] == record
    && HoldsExactly(s'.ctl, u, WantedToken(p.cache, card))
  }

  lemma AdditionFacts(y: Round, k: ContactId)
    requires Started(y)
    requires Reconciler.Adds(k, WantedIn(y), PresentIn(y))
    ensures var r := WantedIn(y)[k];
      r.contact == k && r in y.d.toAdd && r in Writers(y.d) && r.name != "" && Add(r) in Tasks(y.d)
  {
    Reported(y.members, UsersIn(y), y.d);
    WantedByContact(y.members);
    EntryPlaces(y.d);
    IsWriter(y.d, WantedIn(y)[k]);
  }

  lemma ReturningAccount(y: Round, p: Session, s': Session, k: ContactId)
    requires WentThrough(y, p, s') && k in y.s.cache.userIds
    requires Reconciler.Adds(k, WantedIn(y), PresentIn(y))
    ensures var r, u := WantedIn(y)[k], y.s.cache.userIds[k];
            var refused := EmailRefused(s'.log, y.s.cache.userIds, k);
      && r.name != "" && u in y.s.ctl.users
      && AccountOf(p, s', u,
                   SwitchedOn(Written(y.s.ctl.users[u], LessEmail(ReactivationFields(r), refused)), r.policy), r.card)
  {
    var r := WantedIn(y)[k];
    AdditionFacts(y, k);
    RunFacts(y, p, s');
    var i := SoleEntry(Tasks(y.d), Add(r));
    ReactivatedAccount(RunOf(p, y.d), y.f, p, Tasks(y.d), i);
  }

  lemma ReturningSettles(y: Round, p: Session, s': Session, rows': seq<UserRow>, k: ContactId)
    requires WentThrough(y, p, s') && MembersOk(y.members, y.cfg.managed)
    requires Lists(rows', s'.ctl, y.cfg.managed) && !Doubled(s'.ctl, k)
    requires Reconciler.Adds(k, WantedIn(y), PresentIn(y))
    requires k in y.s.cache.userIds
    ensures SettledIn(y, p, s', rows', k)
  {
    var r, u := WantedIn(y)[k], y.s.cache.userIds[k];
    ReturningAccount(y, p, s', k);
    AdditionFacts(y, k);
    KnownIsShown(y, k);
    var refused := EmailRefused(s'.log, y.s.cache.userIds, k);
    ReactivationSettles(y.s.ctl.users[u], r, y.cfg.managed, refused);
    forall shown | CardShown(shown, s'.ctl, u) ensures shown == r.card {
      CardReadsBack(y, p, s', r, u, shown);
    }
    SettleFromRecord(y, p, s', rows', k, u);
  }

  lemma NewAccount(y: Round, p: Session, s': Session, k: ContactId)
    requires WentThrough(y, p, s') && k !in y.s.cache.userIds
    requires Reconciler.Adds(k, WantedIn(y), PresentIn(y))
    ensures var r := WantedIn(y)[k];
            var refused := EmailRefused(s'.log, y.s.cache.userIds, k);
      && r.name != "" && k in s'.cache.userIds
      && AccountOf(p, s', s'.cache.userIds[k],
                   SwitchedOn(Written(NEW_USER, LessEmail(CreationFields(r), refused)), r.policy), r.card)
  {
    var r := WantedIn(y)[k];
    AdditionFacts(y, k);
    RunFacts(y, p, s');
    var i := SoleEntry(Tasks(y.d), Add(r));
    CreatedEntry(RunOf(p, y.d), y.f, p, Tasks(y.d), i);
  }

  lemma CreatedEntry(x: Run, f: Faults, s: Session, ts: seq<Task>, i: nat)
    requires Underway(x, s, ts) && i < |ts| && Sole(ts, i)
    requires ts[i].Add? && ts[i].member.policy.Some? && !Fails(f, s, ts, i)
    requires var k := TaskContact(ts[i]); k !in x.cache0.userIds && !EmailRefused(s.log, x.cache0.userIds, k)
    ensures var r := ts[i].member; var k := r.contact; var s' := RunTasks(f, s, ts);
            var fields := LessEmail(CreationFields(r), EmailRefused(s'.log, x.cache0.userIds, k));
      && k in s'.cache.userIds && s'.cache.userIds[k] in s'.ctl.users
      && s'.ctl.users[s'.cache.userIds[k]] == SwitchedOn(Written(NEW_USER, fields), r.policy)
      && HoldsExactly(s'.ctl, s'.cache.userIds[k], WantedToken(s.cache, r.card))
  {
    CreatedAccount(x, f, s, ts, i);
  }

  lemma NewSettles(y: Round, p: Session, s': Session, rows': seq<UserRow>, k: ContactId)
    requires WentThrough(y, p, s') && MembersOk(y.members, y.cfg.managed)
    requires Lists(rows', s'.ctl, y.cfg.managed) && !Doubled(s'.ctl, k)
    requires Reconciler.Adds(k, WantedIn(y), PresentIn(y))
    requires k !in y.s.cache.userIds
    ensures SettledIn(y, p, s', rows', k)
  {
    var r := WantedIn(y)[k];
    NewAccount(y, p, s', k);
    AdditionFacts(y, k);
    KnownIsShown(y, k);
    CreationSettles(r, y.cfg.managed, EmailRefused(s'.log, y.s.cache.userIds, k));
    forall shown | CardShown(shown, s'.ctl, s'.cache.userIds[k]) ensures shown == r.card {
      CardReadsBack(y, p, s', r, s'.cache.userIds[k], shown);
    }
    SettleFromRecord(y, p, s', rows', k, s'.cache.userIds[k]);
  }

  // ---- active members ----

  ghost function UpdatedRecord(record: UserRecord, p: Pair, credential: bool, policy: bool, refused: bool): UserRecord
    requires credential ==> p.member.name != ""
  {
    AfterPolicy(if credential then Written(record, LessEmail(CredentialFields(p.member, p.user), refused)) else record,
                p, policy)
  }

  lemma UpdateSettles(record: UserRecord, p: Pair, managed: Option<set<string>>, credential: bool, policy: bool,
                      refused: bool)
    requires ReadsRecord(p.user, record, managed) && p.user.active && PolicyOk(p.member, managed)
    requires credential <==> CredentialDiffers(p.member, p.user)
    requires policy <==> p.user.policy != p.member.policy
    requires credential ==> p.member.name != ""
    ensures var r, x := p.member, p.user; var after := UpdatedRecord(record, p, credential, policy, refused);
      && after.employee == record.employee
      && RecordSettled(after, r, managed, r.name != "" && x.name != r.name && !NameRoundTrips(r.name),
                       refused && EmailDiffers(r.email, x.email))
  {
  }

  lemma ActiveFacts(y: Round, k: ContactId)
    requires Started(y)
    requires var wanted, present := WantedIn(y), PresentIn(y);
             WantsDoor(k, wanted) && IsActive(k, present)
    ensures var wanted, present := WantedIn(y), PresentIn(y);
            var p := Pair(wanted[k], present[k]);
      && p.member.contact == k && p.user.contact == k
      && HasEntries(Tasks(y.d), p, UpdatesCredential(k, wanted, present), UpdatesPolicy(k, wanted, present))
      && (UpdatesCredential(k, wanted, present) ==> p.member in Writers(y.d) && p.member.name != "")
  {
    var users := UsersIn(y);
    var wanted, present := WantedIn(y), IndexPresent(users);
    var p := Pair(wanted[k], present[k]);
    Reported(y.members, users, y.d);
    WantedByContact(y.members);
    PresentByContact(users);
    EntryPlaces(y.d);
    DiffEntries(y.members, users, y.d);
    if UpdatesCredential(k, wanted, present) {
      IsWriter(y.d, p.member);
    }
    var ts := Tasks(y.d);
    forall i | 0 <= i < |ts| && TaskContact(ts[i]) == k
      ensures (UpdatesCredential(k, wanted, present) && ts[i] == Credential(p)) ||
              (UpdatesPolicy(k, wanted, present) && ts[i] == Policy(p))
    {
      assert ts[i] in ts;
    }
  }

  lemma MemberAccount(y: Round, p: Session, s': Session, k: ContactId)
    requires WentThrough(y, p, s')
    requires var wanted, present := WantedIn(y), PresentIn(y);
             WantsDoor(k, wanted) && IsActive(k, present)
    ensures var wanted, present := WantedIn(y), PresentIn(y);
            var e := Pair(wanted[k], present[k]); var credential := UpdatesCredential(k, wanted, present);
            var c' := s'.ctl; var refused := EmailRefused(s'.log, y.s.cache.userIds, k);
      && k in y.s.cache.userIds && (credential ==> e.member.name != "")
      && var u := y.s.cache.userIds[k];
      && u in y.s.ctl.users && u in c'.users
      && c'.users[u] == UpdatedRecord(y.s.ctl.users[u], e, credential, UpdatesPolicy(k, wanted, present), refused)
      && (if credential then CardSwapped(y.s.ctl, c', u, e, p.cache) else SameCards(y.s.ctl, c', u))
  {
    var wanted, present := WantedIn(y), PresentIn(y);
    RunFacts(y, p, s');
    ActiveFacts(y, k);
    KnownIsShown(y, k);
    ActiveAccount(RunOf(p, y.d), y.f, p, Tasks(y.d), Pair(wanted[k], present[k]),
                  UpdatesCredential(k, wanted, present), UpdatesPolicy(k, wanted, present));
  }

  lemma ActiveCard(y: Round, p: Session, s': Session, k: ContactId, shown: Option<CardId>)
    requires WentThrough(y, p, s')
    requires var wanted, present := WantedIn(y), PresentIn(y);
             WantsDoor(k, wanted) && IsActive(k, present)
    requires k in y.s.cache.userIds && CardShown(shown, s'.ctl, y.s.cache.userIds[k])
    ensures shown == WantedIn(y)[k].card
  {
    var wanted, present := WantedIn(y), PresentIn(y);
    var e, u := Pair(wanted[k], present[k]), y.s.cache.userIds[k];
    MemberAccount(y, p, s', k);
    ActiveFacts(y, k);
    KnownIsShown(y, k);
    if e.member.card == e.user.card {
      RunFacts(y, p, s');
      CardReadsSame(y.s.ctl, p.ctl, s'.ctl, u, e.user.card, shown);
    } else {
      CardReadsBack(y, p, s', e.member, u, shown);
    }
  }

  lemma ActiveRecord(y: Round, p: Session, s': Session, k: ContactId)
    requires WentThrough(y, p, s') && MembersOk(y.members, y.cfg.managed)
    requires var wanted, present := WantedIn(y), PresentIn(y);
             WantsDoor(k, wanted) && IsActive(k, present)
    ensures var wanted, present := WantedIn(y), PresentIn(y);
      && k in y.s.cache.userIds && y.s.cache.userIds[k] in s'.ctl.users
      && s'.ctl.users[y.s.cache.userIds[k]].employee == Some(k)
      && RecordSettled(s'.ctl.users[y.s.cache.userIds[k]], wanted[k], y.cfg.managed, NameStuck(k, wanted, present),
                       EmailStuck(k, wanted, present, s'.log, y.s.cache.userIds))
  {
    var wanted, present := WantedIn(y), PresentIn(y);
    MemberAccount(y, p, s', k);
    KnownIsShown(y, k);
    var e, u := Pair(wanted[k], present[k]), y.s.cache.userIds[k];
    UpdateSettles(y.s.ctl.users[u], e, y.cfg.managed, UpdatesCredential(k, wanted, present),
                  UpdatesPolicy(k, wanted, present), EmailRefused(s'.log, y.s.cache.userIds, k));
  }

  lemma ActiveSettles(y: Round, p: Session, s': Session, rows': seq<UserRow>, k: ContactId)
    requires WentThrough(y, p, s') && MembersOk(y.members, y.cfg.managed)
    requires Lists(rows', s'.ctl, y.cfg.managed) && !Doubled(s'.ctl, k)
    requires var wanted, present := WantedIn(y), PresentIn(y);
             WantsDoor(k, wanted) && IsActive(k, present)
    ensures SettledIn(y, p, s', rows', k)
  {
    ActiveRecord(y, p, s', k);
    forall shown | CardShown(shown, s'.ctl, y.s.cache.userIds[k]) ensures shown == WantedIn(y)[k].card {
      ActiveCard(y, p, s', k, shown);
    }
    SettleFromRecord(y, p, s', rows', k, y.s.cache.userIds[k]);
  }

  // ---- everybody else ----

  lemma DepartedIsOff(y: Round, p: Session, s': Session, k: ContactId)
    requires WentThrough(y, p, s')
    requires Deactivates(k, WantedIn(y), PresentIn(y))
    ensures var c' := s'.ctl;
      k in y.s.cache.userIds && y.s.cache.userIds[k] in c'.users && c'.users[y.s.cache.userIds[k]].status == DEACTIVATED
  {
    var users := UsersIn(y);
    RunFacts(y, p, s');
    KnownIsShown(y, k);
    Reported(y.members, users, y.d);
    PresentByContact(users);
    DepartedMembers(y, p, s', IndexPresent(users)[k]);
  }

  /** A contact without access and without an entry keeps whatever record it has, and none appears. */
  lemma BystanderIsSame(y: Round, p: Session, s': Session, k: ContactId)
    requires WentThrough(y, p, s') && forall t :: t in Tasks(y.d) ==> TaskContact(t) != k
    ensures
      && (k in y.s.cache.userIds <==> k in s'.cache.userIds)
      && (k in y.s.cache.userIds ==> var u := y.s.cache.userIds[k];
            s'.cache.userIds[k] == u && u in y.s.ctl.users && u in s'.ctl.users && s'.ctl.users[u] == y.s.ctl.users[u])
  {
    RunFacts(y, p, s');
    BystandersAreSpared(y, p, s', k);
    var x := RunOf(p, y.d);
    if k in y.s.cache.userIds {
      assert AccountKept(x, k, y.s.cache.userIds[k], p, s');
    }
  }

  /** At the end of the run, users carry known contacts or contacts that were added. */
  lemma UsersAreNumbered(y: Round, p: Session, s': Session)
    requires WentThrough(y, p, s')
    ensures Numbered(s', AddedBy(Tasks(y.d)))
  {
    RunEnds(y, p, s');
  }

  /** Nobody without a tier is switched on. */
  lemma OthersStayOff(y: Round, p: Session, s': Session, rows': seq<UserRow>, k: ContactId)
    requires WentThrough(y, p, s') && Lists(rows', s'.ctl, y.cfg.managed)
    requires var wanted, present := WantedIn(y), PresentIn(y);
             k !in wanted || wanted[k].resolution == NoAccess
    ensures !IsActive(k, Next(rows', s'.ctl, y.cfg.managed))
  {
    Observe(y, p, s', rows', k);
    var present' := Next(rows', s'.ctl, y.cfg.managed);
    if k in present' {
      var u :| && u in s'.ctl.users && Appears(present'[k], s'.ctl, u, y.cfg.managed)
               && s'.ctl.users[u].employee == Some(k);
      OthersAreOff(y, p, s', k, u);
    }
  }

  /** A user of a contact that was not added is the contact's known user. */
  lemma UserIsKnown(y: Round, p: Session, s': Session, k: ContactId)
    requires WentThrough(y, p, s') && k > 0 && k !in AddedBy(Tasks(y.d))
    ensures
      && (forall u :: u in s'.ctl.users && s'.ctl.users[u].employee == Some(k) ==> IsKnownAs(s', u, k))
      && (k in y.s.cache.userIds ==> IsKnownAs(s', y.s.cache.userIds[k], k))
  {
    UsersAreNumbered(y, p, s');
    RunFacts(y, p, s');
    var x, ts := RunOf(p, y.d), Tasks(y.d);
    AtEnd(y.f, p, ts);
    if k in y.s.cache.userIds {
      UserAt(x, y.f, p, ts, |ts|, k);
    }
    forall u | u in s'.ctl.users && s'.ctl.users[u].employee == Some(k) ensures IsKnownAs(s', u, k) {
      assert Managed(s'.ctl.users[u].employee);
    }
  }

  lemma OthersAreOff(y: Round, p: Session, s': Session, k: ContactId, u: UserId)
    requires WentThrough(y, p, s') && k > 0 && u in s'.ctl.users && s'.ctl.users[u].employee == Some(k)
    requires var wanted := WantedIn(y); k !in wanted || wanted[k].resolution == NoAccess
    ensures s'.ctl.users[u].status != ACTIVE
  {
    NoEntryForOthers(y, k);
    UserIsKnown(y, p, s', k);
    if k in y.s.cache.userIds {
      KnownIsOff(y, p, s', k);
    } else {
      StaysUnknown(y, p, s', k);
    }
  }

  lemma KnownIsOff(y: Round, p: Session, s': Session, k: ContactId)
    requires WentThrough(y, p, s') && k in y.s.cache.userIds
    requires var wanted := WantedIn(y); k !in wanted || wanted[k].resolution == NoAccess
    ensures var u := y.s.cache.userIds[k]; u in s'.ctl.users && s'.ctl.users[u].status != ACTIVE
  {
    if IsActive(k, PresentIn(y)) {
      StatusesDiffer();
      DepartedIsOff(y, p, s', k);
    } else {
      NoEntryForOthers(y, k);
      StaysOff(y, p, s', k);
    }
  }

  lemma StaysUnknown(y: Round, p: Session, s': Session, k: ContactId)
    requires WentThrough(y, p, s') && k !in y.s.cache.userIds
    requires var wanted := WantedIn(y); k !in wanted || wanted[k].resolution == NoAccess
    ensures k !in s'.cache.userIds
  {
    KnownIsShown(y, k);
    NoEntryForOthers(y, k);
    BystanderIsSame(y, p, s', k);
  }

  /** An account that was off and has no entry is still off. */
  lemma StaysOff(y: Round, p: Session, s': Session, k: ContactId)
    requires WentThrough(y, p, s') && k in y.s.cache.userIds && !IsActive(k, PresentIn(y))
    requires forall t :: t in Tasks(y.d) ==> TaskContact(t) != k
    ensures var u := y.s.cache.userIds[k]; u in s'.ctl.users && s'.ctl.users[u].status != ACTIVE
  {
    KnownIsShown(y, k);
    BystanderIsSame(y, p, s', k);
  }

  lemma NoEntryForOthers(y: Round, k: ContactId)
    requires Started(y)
    requires var wanted := WantedIn(y); k !in wanted || wanted[k].resolution == NoAccess
    ensures k !in AddedBy(Tasks(y.d))
    ensures !IsActive(k, PresentIn(y)) ==> forall t :: t in Tasks(y.d) ==> TaskContact(t) != k
  {
    Reported(y.members, UsersIn(y), y.d);
    EntryPlaces(y.d);
    var ts := Tasks(y.d);
    forall i | 0 <= i < |ts| && ts[i].Add? ensures TaskContact(ts[i]) != k {
      assert ts[i] in ts;
    }
  }

  // ---- the fixed point ----

  lemma MemberSettles(y: Round, p: Session, s': Session, rows': seq<UserRow>, k: ContactId)
    requires WentThrough(y, p, s') && MembersOk(y.members, y.cfg.managed)
    requires Lists(rows', s'.ctl, y.cfg.managed) && WantsDoor(k, WantedIn(y)) && !Doubled(s'.ctl, k)
    ensures SettledIn(y, p, s', rows', k)
  {
    if IsActive(k, PresentIn(y)) {
      ActiveSettles(y, p, s', rows', k);
    } else if k in y.s.cache.userIds {
      ReturningSettles(y, p, s', rows', k);
    } else {
      NewSettles(y, p, s', rows', k);
    }
  }

  /** The members whose record still differs: their name or their email is stuck. */
  ghost predicate Residual(k: ContactId, wanted: Wanted, present: Present, log: seq<Event>,
                           ids: map<ContactId, UserId>) {
    WantsDoor(k, wanted) && (NameStuck(k, wanted, present) || EmailStuck(k, wanted, present, log, ids))
  }

  /** The difference asks for nothing but names and emails of these members. */
  ghost predicate OnlyResidue(d: Diff, stuck: iset<ContactId>) {
    && d.toAdd == [] && d.toUpdatePolicy == [] && d.toDeactivate == [] && d.unmapped == []
    && (forall e :: e in d.toUpdateCredential ==> e.member.contact in stuck && e.member.card == e.user.card)
    && (forall k :: k in stuck ==> exists e :: e in d.toUpdateCredential && e.member.contact == k)
  }

  /** The same, but for contacts with two accounts, of which a listing may show either. */
  ghost predicate ResidueBut(d: Diff, stuck: iset<ContactId>, twice: iset<ContactId>) {
    && d.toDeactivate == [] && d.unmapped == []
    && (forall r :: r in d.toAdd ==> r.contact in twice)
    && (forall e :: e in d.toUpdatePolicy ==> e.member.contact in twice)
    && (forall e :: e in d.toUpdateCredential && e.member.contact !in twice ==>
          e.member.contact in stuck && e.member.card == e.user.card)
    && (forall k :: k in stuck && k !in twice ==> exists e :: e in d.toUpdateCredential && e.member.contact == k)
  }

  lemma NobodyLeftOut(d: Diff, stuck: iset<ContactId>, twice: iset<ContactId>)
    requires ResidueBut(d, stuck, twice) && forall k :: k !in twice
    ensures OnlyResidue(d, stuck)
  {
    SomeElement(d.toAdd);
    SomeElement(d.toUpdatePolicy);
  }

  /** Comparing settled members with the next fetch leaves exactly the stuck ones. */
  lemma SettledLeavesResidue(members: seq<ResolvedMember>, users': seq<UnifiUser>, d': Diff, stuck: iset<ContactId>,
                             twice: iset<ContactId>)
    requires IsDiff(members, users', d')
    requires var wanted, present' := IndexWanted(members), IndexPresent(users');
      && (forall k :: !IsUnmapped(k, wanted))
      && (forall k :: k in stuck ==> WantsDoor(k, wanted))
      && (forall k :: k !in wanted || wanted[k].resolution == NoAccess ==> !IsActive(k, present'))
      && (forall k :: WantsDoor(k, wanted) && k !in twice ==> k in present' && present'[k].active)
      && (forall k :: WantsDoor(k, wanted) && k !in twice ==>
            present'[k].policy == wanted[k].policy && present'[k].card == wanted[k].card)
      && (forall k :: WantsDoor(k, wanted) && k !in twice ==>
            (k in stuck <==> CredentialDiffers(wanted[k], present'[k])))
    ensures ResidueBut(d', stuck, twice)
  {
    Reported(members, users', d');
    WantedByContact(members);
    SomeElement(d'.toDeactivate);
    SomeElement(d'.unmapped);
  }

  lemma SomeElement<T(!new)>(xs: seq<T>)
    ensures xs == [] || exists x :: x in xs
  {
    if xs != [] {
      assert xs[0] in xs;
    }
  }

  lemma NobodyUnmapped(y: Round)
    requires Started(y)
    ensures forall k :: !IsUnmapped(k, WantedIn(y))
  {
    Reported(y.members, UsersIn(y), y.d);
  }

  /** The members a listing may show with the wrong one of two accounts. */
  ghost predicate Twice(y: Round, s': Session, k: ContactId) {
    k > 0 && OpenedTwice(y.f, s'.log, k)
  }

  /**
  The fixed point: when an apply raises nothing, whatever requests were refused or lost on the way, the
  difference computed from any later listing has no addition, policy change or deactivation, and its
  credential changes are exactly the members whose written name does not survive the round trip or
  whose differing email was refused as taken; their cards are right. Only a member whose create was
  carried out twice may need more, because the listing shows either account.
  */
  lemma ReachesFixedPoint(y: Round, p: Session, s': Session, rows': seq<UserRow>, d': Diff)
    requires WentThrough(y, p, s') && MembersOk(y.members, y.cfg.managed)
    requires Lists(rows', s'.ctl, y.cfg.managed)
    requires IsDiff(y.members, Fetched(rows', s'.ctl, y.cfg.managed), d')
    ensures ResidueBut(d', iset k | Residual(k, WantedIn(y), PresentIn(y), s'.log, y.s.cache.userIds),
                       iset k | Twice(y, s', k))
  {
    var users', wanted := Fetched(rows', s'.ctl, y.cfg.managed), WantedIn(y);
    RunKeepsUnique(y, p, s');
    forall k | WantsDoor(k, wanted) && !Twice(y, s', k) ensures SettledIn(y, p, s', rows', k) {
      MemberSettles(y, p, s', rows', k);
    }
    forall k | k !in wanted || wanted[k].resolution == NoAccess ensures !IsActive(k, IndexPresent(users')) {
      OthersStayOff(y, p, s', rows', k);
    }
    NobodyUnmapped(y);
    SettledLeavesResidue(y.members, users', d',
      iset k | Residual(k, wanted, PresentIn(y), s'.log, y.s.cache.userIds), iset k | Twice(y, s', k));
  }

  /** The same, said of an apply; when nobody's create was carried out twice, nothing else is left. */
  lemma ApplyReachesFixedPoint(y: Round, rows': seq<UserRow>, d': Diff)
    requires Started(y) && Applied(y).out.Fine? && MembersOk(y.members, y.cfg.managed)
    requires Lists(rows', Applied(y).s.ctl, y.cfg.managed)
    requires IsDiff(y.members, Fetched(rows', Applied(y).s.ctl, y.cfg.managed), d')
    ensures ResidueBut(d', iset k | Residual(k, WantedIn(y), PresentIn(y), Applied(y).s.log, y.s.cache.userIds),
                       iset k | Twice(y, Applied(y).s, k))
    ensures NobodyTwice(y.f, Applied(y).s.log) ==>
      OnlyResidue(d', iset k | Residual(k, WantedIn(y), PresentIn(y), Applied(y).s.log, y.s.cache.userIds))
  {
    AppliedIsRun(y);
    var s' := Applied(y).s;
    ReachesFixedPoint(y, RunStart(y).s, s', rows', d');
    if NobodyTwice(y.f, s'.log) {
      NobodyLeftOut(d', iset k | Residual(k, WantedIn(y), PresentIn(y), s'.log, y.s.cache.userIds),
                    iset k | Twice(y, s', k));
    }
  }
}
