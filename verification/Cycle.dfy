/**
One reconcile cycle up to the point where the difference is applied, and what a fresh read shows.
*/
module Cycle {
  import opened Models
  import opened Codec
  import opened Controller
  import opened Protocol
  import opened Safety
  import opened Reconciler
  import opened Snapshot
  import opened CardIndex
  import opened ForceBind
  import opened CardProtocol

  /** The users a fetch returns for a listing. */
  function Fetched(rows: seq<UserRow>, c: State, managed: Option<set<string>>): seq<UnifiUser> {
    ReadUsers(rows, CardNumbers(c), managed)
  }

  /** A fetch reads every card number, even when it never needed the card list. */
  lemma {:induction false} FetchReadsAll(rows: seq<UserRow>, cache: Cache, c: State, managed: Option<set<string>>)
    requires FetchedFrom(cache, c, rows)
    ensures ReadUsers(rows, cache.cardOf, managed) == Fetched(rows, c, managed)
  {
    if !HasManagedCards(rows) {
      NoCardsToRead(rows, cache.cardOf, CardNumbers(c), managed);
    }
  }

  lemma {:induction false} NoCardsToRead(rows: seq<UserRow>, m: map<Token, CardId>, n: map<Token, CardId>,
                                         managed: Option<set<string>>)
    requires !HasManagedCards(rows)
    ensures ReadUsers(rows, m, managed) == ReadUsers(rows, n, managed)
  {
    if rows != [] {
      var front := rows[..|rows| - 1];
      assert !HasManagedCards(front) by {
        forall i | 0 <= i < |front| ensures !(Managed(front[i].record.employee) && front[i].cards != []) {
          assert front[i] == rows[i];
        }
      }
      NoCardsToRead(front, m, n, managed);
      var last := rows[|rows| - 1];
      assert !(Managed(last.record.employee) && last.cards != []);
    }
  }

  function ShownEmail(email: string): Option<string> {
    if email == "" then None else Some(email)
  }

  /** A record as a fetch shows it, cards aside. */
  predicate ReadsRecord(x: UnifiUser, r: UserRecord, managed: Option<set<string>>) {
    && r.employee == Some(x.contact)
    && x.name == JoinName(r.first, r.last)
    && x.active == (r.status == ACTIVE)
    && x.policy == FirstOf(ManagedOf(r.policies, managed))
    && x.email == ShownEmail(r.email)
  }

  /** How user `u` of the controller shows in a fetch; of several cards, any one is read. */
  ghost predicate Appears(x: UnifiUser, c: State, u: UserId, managed: Option<set<string>>)
    requires u in c.users
  {
    ReadsRecord(x, c.users[u], managed) && CardShown(x.card, c, u)
  }

  ghost predicate CardShown(card: Option<CardId>, c: State, u: UserId) {
    (exists t :: Holds(c, u, t) && card == Lookup(CardNumbers(c), t)) || (card == None && forall t :: !Holds(c, u, t))
  }

  lemma RowAppears(row: UserRow, c: State, managed: Option<set<string>>)
    requires Shows(row, c, managed)
    ensures Managed(c.users[row.id].employee) <==> ReadUser(row, CardNumbers(c), managed).Some?
    ensures Managed(c.users[row.id].employee) ==>
              Appears(ReadUser(row, CardNumbers(c), managed).value, c, row.id, managed)
  {
  }

  lemma {:induction false} ReadOne(rows: seq<UserRow>, m: map<Token, CardId>, managed: Option<set<string>>,
                                   k: ContactId)
    ensures k in IndexPresent(ReadUsers(rows, m, managed)) ==>
              exists i :: 0 <= i < |rows| &&
                ReadUser(rows[i], m, managed) == Some(IndexPresent(ReadUsers(rows, m, managed))[k])
    ensures (exists i :: 0 <= i < |rows| && var x := ReadUser(rows[i], m, managed); x.Some? && x.value.contact == k) ==>
              k in IndexPresent(ReadUsers(rows, m, managed))
  {
    if rows != [] {
      var n := |rows| - 1;
      var front := rows[..n];
      ReadOne(front, m, managed, k);
      var fs := ReadUsers(front, m, managed);
      var last := ReadUser(rows[n], m, managed);
      var all := ReadUsers(rows, m, managed);
      assert last.Some? ==> all == fs + [last.value] && all[..|all| - 1] == fs;
      if k in IndexPresent(all) {
        if last.Some? && last.value.contact == k {
          assert ReadUser(rows[n], m, managed) == Some(IndexPresent(all)[k]);
        } else {
          var i :| 0 <= i < n && ReadUser(front[i], m, managed) == Some(IndexPresent(fs)[k]);
          assert ReadUser(rows[i], m, managed) == Some(IndexPresent(all)[k]);
        }
      }
      forall i | 0 <= i < n && ReadUser(rows[i], m, managed).Some? && ReadUser(rows[i], m, managed).value.contact == k
        ensures k in IndexPresent(fs)
      {
        assert front[i] == rows[i];
      }
    }
  }

  /** A contact a fetch shows has a user like that; a user is shown as it is unless its contact has two. */
  lemma FetchShowsOne(rows: seq<UserRow>, c: State, managed: Option<set<string>>, k: ContactId)
    requires Lists(rows, c, managed)
    ensures var present := IndexPresent(Fetched(rows, c, managed));
      k in present ==>
        k > 0 && exists u :: u in c.users && Appears(present[k], c, u, managed) && c.users[u].employee == Some(k)
    ensures var present := IndexPresent(Fetched(rows, c, managed));
      forall u :: u in c.users && c.users[u].employee == Some(k) && k > 0 ==>
        k in present && (!Doubled(c, k) ==> Appears(present[k], c, u, managed))
  {
    var m := CardNumbers(c);
    var present := IndexPresent(Fetched(rows, c, managed));
    ReadOne(rows, m, managed, k);
    PresentByContact(Fetched(rows, c, managed));
    if k in present {
      var i :| 0 <= i < |rows| && ReadUser(rows[i], m, managed) == Some(present[k]);
      RowAppears(rows[i], c, managed);
      assert Appears(present[k], c, rows[i].id, managed);
    }
    forall u | u in c.users && c.users[u].employee == Some(k) && k > 0
      ensures k in present && (!Doubled(c, k) ==> Appears(present[k], c, u, managed))
    {
      var i :| 0 <= i < |rows| && rows[i].id == u;
      RowAppears(rows[i], c, managed);
      assert ReadUser(rows[i], m, managed).value.contact == k;
      var j :| 0 <= j < |rows| && ReadUser(rows[j], m, managed) == Some(present[k]);
      RowAppears(rows[j], c, managed);
    }
  }

  /** A fetch shows exactly the managed users, each under its contact. */
  lemma FetchShows(rows: seq<UserRow>, c: State, managed: Option<set<string>>, k: ContactId)
    requires UniqueContacts(c) && Lists(rows, c, managed)
    ensures var present := IndexPresent(Fetched(rows, c, managed));
      && (k in present ==>
            k > 0 && exists u :: u in c.users && Appears(present[k], c, u, managed) && c.users[u].employee == Some(k))
      && (forall u :: u in c.users && c.users[u].employee == Some(k) && k > 0 ==>
            k in present && Appears(present[k], c, u, managed))
  {
    FetchShowsOne(rows, c, managed, k);
    UniqueIsNotDoubled(c);
  }

  // ---- a cycle about to be applied ----

  /** What the client relies on: sound counters, one user per contact, at most one card per user. */
  ghost predicate Sound(c: State) {
    WellFormed(c) && UniqueContacts(c) && OneCardEach(c)
  }

  ghost predicate OneCardEach(c: State) {
    forall t, t' :: t in c.bound && t' in c.bound && c.bound[t] == c.bound[t'] ==> t == t'
  }

  /** The difference passed the card guards and nothing was unmapped. */
  ghost predicate Guarded(d: Diff) {
    d.unmapped == [] && DistinctCards(d) && CardsInRange(d) && NamesOk(d)
  }

  /** One reconcile round: the faults to come, the session after the fetch, what was fetched, and the difference. */
  datatype Round = Round(
    f: Faults, cfg: Config, s: Session, rows: seq<UserRow>, members: seq<ResolvedMember>, d: Diff)

  function UsersIn(y: Round): seq<UnifiUser> {
    Fetched(y.rows, y.s.ctl, y.cfg.managed)
  }

  function WantedIn(y: Round): Wanted {
    IndexWanted(y.members)
  }

  function PresentIn(y: Round): Present {
    IndexPresent(UsersIn(y))
  }

  /** The users were just fetched, and the difference against the members passed the guards. */
  ghost predicate Started(y: Round) {
    Sound(y.s.ctl) && Compared(y) && Guarded(y.d)
  }

  /** Both sides were fetched, by listings only, and the difference was computed. */
  ghost predicate Compared(y: Round) {
    && Lists(y.rows, y.s.ctl, y.cfg.managed) && FetchedFrom(y.s.cache, y.s.ctl, y.rows)
    && ReadsOnly(y.s.log)
    && IsDiff(y.members, UsersIn(y), y.d)
    && y.cfg.facility < FACILITY_CODES
  }

  /** The run begins after the shared import. */
  ghost function RunStart(y: Round): Step {
    PreImport(y.f, y.cfg, y.s.(failures := []), y.d)
  }

  ghost function Applied(y: Round): Step {
    Apply(y.f, y.cfg, y.s, y.d)
  }

  /** A contact has at most one entry, or a credential entry followed by a policy entry. */
  ghost predicate OneEntryPerContact(ts: seq<Task>) {
    forall i, j :: 0 <= i < j < |ts| && TaskContact(ts[i]) == TaskContact(ts[j]) ==> ts[i].Credential? && ts[j].Policy?
  }

  lemma StartedIsGood(y: Round)
    requires Started(y)
    ensures Agrees(y.s.cache, y.s.ctl)
    ensures AllNamed(Tasks(y.d)) && OneEntryPerContact(Tasks(y.d)) && SweepsDisjoint(Tasks(y.d))
    ensures var pre := RunStart(y); var x := RunOf(pre.s, y.d);
      && OnlyIndexed(y.s.(failures := []), pre.s) && WellFormed(pre.s.ctl)
      && (pre.out.Fine? ==> RunOk(x) && Good(x, pre.s) && Tidy(x, y.f, {}, pre.s) && CardsExtend(y.s.ctl, pre.s.ctl))
      && (pre.out.Fine? ==> forall i :: 0 <= i < |Tasks(y.d)| ==> TaskInRun(x, Tasks(y.d)[i]))
      && (pre.out.Fine? && Writers(y.d) != [] ==>
            CardsLoaded(pre.s.cache, pre.s.ctl) && TokensKnown(y.d, pre.s.cache.tokenMap.value))
  {
    FetchAgrees(y.s.cache, y.s.ctl, y.rows, y.cfg.managed);
    TasksAreNamed(y.d);
    DiffEntries(y.members, UsersIn(y), y.d);
    DiffIsDisjoint(y.members, UsersIn(y), y.d);
    var s0 := y.s.(failures := []);
    PreImportResult(y.f, y.cfg, s0, y.d);
    var pre := RunStart(y);
    if pre.out.Fine? {
      DiffWritesOnce(y.members, UsersIn(y), y.d);
      RunStartsGood(s0, pre.s, y.d);
      TidyStarts(y.f, s0, pre.s, y.d);
      TasksInRun(RunOf(pre.s, y.d), y.d);
    }
  }

  /** The buckets of a computed difference overlap only in credential and policy. */
  lemma DiffEntries(members: seq<ResolvedMember>, users: seq<UnifiUser>, d: Diff)
    requires IsDiff(members, users, d)
    ensures OneEntryPerContact(Tasks(d))
  {
    Reported(members, users, d);
    DiffIsDisjoint(members, users, d);
    var a, b, c := |d.toDeactivate|, |d.toUpdateCredential|, |d.toUpdatePolicy|;
    var ts := Tasks(d);
    var wanted, present := IndexWanted(members), IndexPresent(users);
    forall i | 0 <= i < |ts|
      ensures ts[i].Deactivate? ==> Deactivates(TaskContact(ts[i]), wanted, present)
      ensures ts[i].Policy? ==> a + b <= i < a + b + c && ts[i].pair == d.toUpdatePolicy[i - a - b] &&
                                UpdatesPolicy(TaskContact(ts[i]), wanted, present) &&
                                ts[i].pair == Pair(wanted[TaskContact(ts[i])], present[TaskContact(ts[i])])
      ensures ts[i].Credential? ==> i < a + b
      ensures ts[i].Add? ==> Reconciler.Adds(TaskContact(ts[i]), wanted, present)
    {
      if ts[i].Policy? {
        assert d.toUpdatePolicy[i - a - b] in d.toUpdatePolicy;
      }
    }
    forall i, j | a + b <= i < j < a + b + c ensures TaskContact(ts[i]) != TaskContact(ts[j]) {
      assert d.toUpdatePolicy[i - a - b] != d.toUpdatePolicy[j - a - b];
    }
  }

  /**
  What every request of a round respects, whatever fails: forced binds hurt no active user, no card is
  offered to two users, no card is deleted twice, deletes name held cards as long as no answer is lost,
  and accounts are switched on only when ready.
  */
  lemma RoundIsSafe(y: Round)
    requires Started(y)
    ensures var s' := Applied(y).s; var log := s'.log;
      && AllHarmless(log) && OneUserPerCard(log) && NoDoubleDelete(log)
      && (NeverLost(y.f) ==> DeletesAreHeld(log))
      && ActivationsReady(RunOf(RunStart(y).s, y.d), s'.cache.userIds, log)
  {
    FetchAgrees(y.s.cache, y.s.ctl, y.rows, y.cfg.managed);
    NoActiveUserLosesACard(y.f, y.cfg, y.s, y.members, UsersIn(y), y.d);
    OnlyReadyAccountsAreSwitchedOn(y.f, y.cfg, y.s, y.members, UsersIn(y), y.d);
    CardsAreSweptOnce(y.f, y.cfg, y.s, y.members, UsersIn(y), y.d);
  }
}
