/**
The smallest deadlock: two active members who each want the card the other one holds. It meets every
hypothesis of the convergence theorem, so two cycles settle it, and one never does.
*/
module Swap {
  import opened Models
  import opened Codec
  import opened Controller
  import opened Protocol
  import opened Safety
  import opened Reconciler
  import opened Snapshot
  import opened CardIndex
  import opened ForceBind
  import opened Cycle
  import opened Refinement
  import opened Convergence
  import opened Deadlock
  import opened Listings
  import opened Isolation

  function Account(k: ContactId): UserRecord {
    UserRecord("Pat", "Smith", "", Some(k), ACTIVE, ["door"])
  }

  /** User 1 holds card 7 under token 10, user 2 holds card 8 under token 11. */
  function Before(): State {
    State(map[1 := Account(1), 2 := Account(2)], map[10 := 1, 11 := 2],
          [CardRow(SyncAlias(7), 10), CardRow(SyncAlias(8), 11)], {}, 3, 12)
  }

  function Member(k: ContactId, card: CardId): ResolvedMember {
    ResolvedMember(k, "Pat Smith", Some(card), Some("door"), Tier, None)
  }

  function Rows(): seq<UserRow> {
    [UserRow(1, Account(1), [10]), UserRow(2, Account(2), [11])]
  }

  ghost function Fetch(): Session {
    Session(Before(), [],
            Cache(IndexUserIds(Rows()), IndexCardLists(Rows()), Some(CardTokens(Before())), CardNumbers(Before()),
                  IndexHolders(Rows())), [])
  }

  function Wishes(): seq<ResolvedMember> {
    [Member(1, 8), Member(2, 7)]
  }

  function Shown(): Present {
    IndexPresent(Fetched(Rows(), Before(), None))
  }

  lemma IndexPair(a: Entry, b: Entry)
    ensures IndexTokens(map[], [a, b]) == map[a.token := a.card][b.token := b.card]
    ensures IndexCards(map[], [a, b]) == map[a.card := a.token][b.card := b.token]
  {
    assert [a, b][..1] == [a] && [a][..0] == [];
    assert IndexTokens(map[], [a]) == IndexTokens(map[], [])[a.token := a.card] == map[a.token := a.card];
    assert IndexCards(map[], [a]) == IndexCards(map[], [])[a.card := a.token] == map[a.card := a.token];
  }

  lemma CardsOfSwap()
    ensures CardNumbers(Before()) == map[10 := 7][11 := 8]
    ensures CardTokens(Before()) == map[7 := 10][8 := 11]
  {
    var es := [Entry(7, 10), Entry(8, 11)];
    AliasRoundTrip(7);
    AliasRoundTrip(8);
    EntriesOfNumbered(Before().cards, es);
    IndexPair(es[0], es[1]);
  }

  lemma PairIsSound(c: State, a: UserRecord, b: UserRecord)
    requires c.users == map[1 := a, 2 := b] && a.employee == Some(1) && b.employee == Some(2)
    requires c.bound == map[10 := 1, 11 := 2] && c.nextUser == 3 && c.nextToken == 12
    requires |c.cards| == 2 && c.cards[0].token == 10 && c.cards[1].token == 11
    ensures Sound(c)
  {
  }

  lemma PairIsListed(c: State, a: UserRecord, b: UserRecord)
    requires c.users == map[1 := a, 2 := b] && c.bound == map[10 := 1, 11 := 2]
    ensures Lists([UserRow(1, a, [10]), UserRow(2, b, [11])], c, None)
  {
    var rows := [UserRow(1, a, [10]), UserRow(2, b, [11])];
    assert Shows(rows[0], c, None) && Shows(rows[1], c, None);
    forall u | u in c.users ensures exists i :: 0 <= i < |rows| && rows[i].id == u {
      assert rows[0].id == 1 && rows[1].id == 2;
    }
  }

  lemma SwapIsSound()
    ensures Sound(Before()) && Lists(Rows(), Before(), None) && HasManagedCards(Rows())
  {
    PairIsSound(Before(), Account(1), Account(2));
    PairIsListed(Before(), Account(1), Account(2));
    assert Managed(Rows()[0].record.employee) && Rows()[0].cards != [];
  }

  lemma WishesOfSwap()
    ensures IndexWanted(Wishes()) == map[1 := Member(1, 8)][2 := Member(2, 7)]
  {
    assert Wishes()[..1] == [Member(1, 8)] && Wishes()[..1][..0] == [];
  }

  lemma HeldOne(c: State, shown: Option<CardId>, u: UserId, token: Token, card: CardId)
    requires CardShown(shown, c, u) && Holds(c, u, token) && OneCardEach(c)
    requires token in CardNumbers(c) && CardNumbers(c)[token] == card
    ensures shown == Some(card)
  {
  }

  lemma ShownCard(rows: seq<UserRow>, c: State, u: UserId, k: ContactId, token: Token, card: CardId)
    requires UniqueContacts(c) && OneCardEach(c) && Lists(rows, c, None)
    requires u in c.users && c.users[u].employee == Some(k) && c.users[u].status == ACTIVE && k > 0
    requires Holds(c, u, token) && token in CardNumbers(c) && CardNumbers(c)[token] == card
    ensures var present := IndexPresent(Fetched(rows, c, None));
      k in present && present[k].contact == k && present[k].active && present[k].card == Some(card)
  {
    FetchShows(rows, c, None, k);
    HeldOne(c, IndexPresent(Fetched(rows, c, None))[k].card, u, token, card);
  }

  lemma PairIsUnique(c: State, a: UserRecord, b: UserRecord)
    requires c.users == map[1 := a, 2 := b] && a.employee == Some(1) && b.employee == Some(2)
    requires c.bound == map[10 := 1, 11 := 2]
    ensures UniqueContacts(c) && OneCardEach(c)
  {
  }

  lemma PairIsShown(rows: seq<UserRow>, c: State, a: UserRecord, b: UserRecord, k: ContactId, token: Token,
                    card: CardId)
    requires c.users == map[1 := a, 2 := b] && a.employee == Some(1) && b.employee == Some(2)
    requires a.status == ACTIVE && b.status == ACTIVE && c.bound == map[10 := 1, 11 := 2]
    requires CardNumbers(c) == map[10 := 7][11 := 8] && Lists(rows, c, None)
    requires (k == 1 && token == 10 && card == 7) || (k == 2 && token == 11 && card == 8)
    ensures var present := IndexPresent(Fetched(rows, c, None));
      k in present && present[k].contact == k && present[k].active && present[k].card == Some(card)
  {
    PairIsUnique(c, a, b);
    ShownCard(rows, c, k, k, token, card);
  }

  lemma ShownOne(k: ContactId, token: Token, card: CardId)
    requires (k == 1 && token == 10 && card == 7) || (k == 2 && token == 11 && card == 8)
    ensures k in Shown() && Shown()[k].contact == k && Shown()[k].active && Shown()[k].card == Some(card)
  {
    PairIsListed(Before(), Account(1), Account(2));
    CardsOfSwap();
    PairIsShown(Rows(), Before(), Account(1), Account(2), k, token, card);
  }

  /** What the fetch shows: both accounts active under the shared policy, each with its own card. */
  ghost predicate IsShown(present: Present) {
    && present.Keys == {1, 2}
    && (forall k :: k in present ==> present[k].contact == k && present[k].active && present[k].policy == Some("door"))
    && present[1].card == Some(7) && present[2].card == Some(8)
  }

  lemma PolicyOf(x: UnifiUser, r: UserRecord, policy: string)
    requires ReadsRecord(x, r, None) && r.policies == [policy]
    ensures x.policy == Some(policy)
  {
    assert [policy][..0] == [];
    assert ManagedOf([policy], None) == ManagedOf([], None) + [policy];
  }

  /** Users 1 and 2 are the users of contacts 1 and 2, under one policy. */
  ghost predicate TwoUsers(c: State, policy: string) {
    && c.users.Keys == {1, 2}
    && forall v :: v in c.users ==> c.users[v].employee == Some(v) && c.users[v].policies == [policy]
  }

  lemma ShownAccount(rows: seq<UserRow>, c: State, k: ContactId, policy: string)
    requires UniqueContacts(c) && Lists(rows, c, None) && TwoUsers(c, policy)
    requires k in IndexPresent(Fetched(rows, c, None))
    ensures (k == 1 || k == 2) && IndexPresent(Fetched(rows, c, None))[k].policy == Some(policy)
  {
    FetchShows(rows, c, None, k);
    var x := IndexPresent(Fetched(rows, c, None))[k];
    var u :| u in c.users && Appears(x, c, u, None) && c.users[u].employee == Some(k);
    PolicyOf(x, c.users[u], policy);
  }

  lemma PairIsTwo(c: State, a: UserRecord, b: UserRecord, policy: string)
    requires c.users == map[1 := a, 2 := b] && a.employee == Some(1) && b.employee == Some(2)
    requires a.policies == [policy] && b.policies == [policy]
    ensures TwoUsers(c, policy)
  {
  }

  lemma UsersOfSwap()
    ensures UniqueContacts(Before()) && Lists(Rows(), Before(), None) && TwoUsers(Before(), "door")
  {
    PairIsListed(Before(), Account(1), Account(2));
    PairIsUnique(Before(), Account(1), Account(2));
    PairIsTwo(Before(), Account(1), Account(2), "door");
  }

  lemma ShownPolicy(k: ContactId)
    requires k in Shown()
    ensures (k == 1 || k == 2) && Shown()[k].policy == Some("door")
  {
    UsersOfSwap();
    ShownAccount(Rows(), Before(), k, "door");
  }

  lemma ShowsTwo(present: Present)
    requires 1 in present && 2 in present && forall k :: k in present ==> k == 1 || k == 2
    requires forall k :: k in present ==>
              present[k].contact == k && present[k].active && present[k].policy == Some("door")
    requires present[1].card == Some(7) && present[2].card == Some(8)
    ensures IsShown(present)
  {
  }

  lemma ShowsBoth()
    ensures IsShown(Shown())
  {
    ShownOne(1, 10, 7);
    ShownOne(2, 11, 8);
    forall k | k in Shown() ensures (k == 1 || k == 2) && Shown()[k].policy == Some("door") {
      ShownPolicy(k);
    }
    ShowsTwo(Shown());
  }

  function Swaps(present: Present): Diff
    requires 1 in present && 2 in present
  {
    Diff([], [Pair(Member(1, 8), present[1]), Pair(Member(2, 7), present[2])], [], [], [])
  }

  lemma DiffOfSwap(wanted: Wanted, present: Present)
    requires wanted == map[1 := Member(1, 8)][2 := Member(2, 7)] && IsShown(present)
    ensures IsDiffOver({1, 2}, wanted, present, Swaps(present)) && Guarded(Swaps(present))
  {
  }

  // ---- the first cycle ----

  ghost function Start(f: Faults): Round
    requires IsShown(Shown())
  {
    Round(f, Config(0, None), Fetch(), Rows(), Wishes(), Swaps(Shown()))
  }

  lemma FetchOfSwap()
    ensures FetchedFrom(Fetch().cache, Before(), Rows())
  {
    SwapIsSound();
  }

  lemma DiffIsComputed()
    requires IsShown(Shown())
    ensures IsDiff(Wishes(), Fetched(Rows(), Before(), None), Swaps(Shown())) && Guarded(Swaps(Shown()))
  {
    WishesOfSwap();
    var wanted, present := IndexWanted(Wishes()), Shown();
    DiffOfSwap(wanted, present);
    assert wanted.Keys + present.Keys == {1, 2};
  }

  lemma SwapStarts(f: Faults)
    requires IsShown(Shown())
    ensures Started(Start(f))
  {
    SwapIsSound();
    FetchOfSwap();
    DiffIsComputed();
  }

  /** Who wants and holds what, without the records. */
  lemma PairIsInScope(c: State, members: seq<ResolvedMember>, present: Present, policy: string)
    requires IndexWanted(members) == map[1 := Member(1, 8)][2 := Member(2, 7)] && c.bound == map[10 := 1, 11 := 2]
    requires CardTokens(c) == map[7 := 10][8 := 11] && TwoUsers(c, policy)
    ensures MembersOk(members, None) && DistinctMemberCards(IndexWanted(members))
    ensures AllInScope(c, members, present)
  {
  }

  lemma PairIsStuck(y: Round)
    requires WantedIn(y) == map[1 := Member(1, 8)][2 := Member(2, 7)] && IsShown(PresentIn(y))
    requires y.s.ctl.bound == map[10 := 1, 11 := 2] && CardTokens(y.s.ctl) == map[7 := 10][8 := 11]
    requires y.s.cache.userIds == map[1 := 1][2 := 2]
    ensures Deadlocked(y, {1, 2})
  {
    assert HeldBy(y.s, 11, 2) && HeldBy(y.s, 10, 1);
    assert Stuck(y, {1, 2}, 1) && Stuck(y, {1, 2}, 2);
    assert 1 in {1, 2};
  }

  lemma UserIdsOfSwap()
    ensures IndexUserIds(Rows()) == map[1 := 1][2 := 2]
  {
    var rows := Rows();
    assert rows[..1] == [rows[0]] && rows[..1][..0] == [];
    assert IndexUserIds(rows[..1]) == map[1 := 1];
  }

  lemma SwapIsInScope(present: Present)
    ensures MembersOk(Wishes(), None) && DistinctMemberCards(IndexWanted(Wishes()))
    ensures AllInScope(Before(), Wishes(), present)
  {
    WishesOfSwap();
    CardsOfSwap();
    UsersOfSwap();
    PairIsInScope(Before(), Wishes(), present, "door");
  }

  lemma SwapIsStuck(f: Faults)
    requires IsShown(Shown())
    ensures Deadlocked(Start(f), {1, 2})
  {
    WishesOfSwap();
    CardsOfSwap();
    UserIdsOfSwap();
    PairIsStuck(Start(f));
  }

  /** With every card known there is nothing to import. */
  lemma NothingToImport(f: Faults, cfg: Config, s: Session, d: Diff)
    requires CardsInRange(d) && s.cache.tokenMap.Some?
    requires forall w :: w in Writers(d) && w.card.Some? ==> w.card.value in s.cache.tokenMap.value
    ensures PreImport(f, cfg, s, d) == Step(s, Fine)
  {
    NeededFrom(Writers(d), s.cache.tokenMap.value);
    SomeElement(NeededCards(Writers(d), s.cache.tokenMap.value));
  }

  lemma PairImportsNothing(f: Faults, cfg: Config, s: Session, present: Present)
    requires IsShown(present) && s.cache.tokenMap == Some(map[7 := 10][8 := 11])
    ensures CardsInRange(Swaps(present)) && PreImport(f, cfg, s, Swaps(present)) == Step(s, Fine)
  {
    NothingToImport(f, cfg, s, Swaps(present));
  }

  lemma SwapImportsNothing(f: Faults)
    requires IsShown(Shown())
    ensures CardsInRange(Start(f).d) && RunStart(Start(f)) == Step(Fetch(), Fine)
  {
    CardsOfSwap();
    PairImportsNothing(f, Config(0, None), Fetch(), Shown());
  }

  lemma SameCardsAfter(y: Round, p: Session, s': Session)
    requires Ran(y, p, s')
    ensures s'.ctl.cards == p.ctl.cards
  {
    CardListFixed(RunOf(p, y.d), y.f, p, Tasks(y.d), |Tasks(y.d)|);
    AtEnd(y.f, p, Tasks(y.d));
  }

  lemma SwapKeepsCardList(f: Faults)
    requires IsShown(Shown()) && Started(Start(f))
    ensures Applied(Start(f)).s.ctl.cards == Before().cards
  {
    SwapImportsNothing(f);
    AppliedIsRun(Start(f));
    SameCardsAfter(Start(f), Fetch(), Applied(Start(f)).s);
  }

  lemma WishesFit()
    ensures MembersFit(IndexWanted(Wishes()))
  {
    WishesOfSwap();
  }

  /** The swap is a deadlock: its first apply raises, whatever the requests answer. */
  lemma OneCycleFails(f: Faults)
    ensures IsShown(Shown()) && Started(Start(f)) && Applied(Start(f)).out.Raised?
  {
    ShowsBoth();
    SwapStarts(f);
    SwapIsStuck(f);
    DeadlockNeedsTwoCycles(Start(f), {1, 2});
  }

  /** And it is a case of the convergence theorem: a second cycle can start, and raises nothing. */
  lemma SwapTakesTwoCycles(f: Faults, g: Faults) returns (y2: Round)
    requires NoFaults(f) && NoFaults(g)
    ensures IsShown(Shown()) && Started(Start(f)) && Applied(Start(f)).out.Raised?
    ensures Started(y2) && y2.f == g && y2.members == Wishes() && y2.s.ctl == Applied(Start(f)).s.ctl
    ensures Applied(y2).out.Fine?
  {
    OneCycleFails(f);
    SwapIsInScope(Shown());
    WishesFit();
    SwapKeepsCardList(f);
    y2 := SomeRound(Applied(Start(f)).s.ctl, g, Config(0, None), Wishes());
    TwoCyclesConverge(Start(f), y2, [], y2.d);
  }
}
