/**
One reconcile cycle from end to end: fetch both sides, resolve, compare, check, apply, and leave the
operators' files behind. The crash handler is the other way a cycle ends.
*/
module Orchestrator {
  import opened Models
  import opened Controller
  import opened Reconciler
  import opened Safety
  import opened Cycle
  import opened Snapshot
  import opened Refinement
  import opened Population
  import opened TierMapping
  import opened Doubles
  import Codec
  import Convergence
  import C = Civicrm
  import U = UnifiClient
  import O = Operations

  /** What one cycle reads: the CiviCRM tables and which membership statuses count. */
  datatype Source = Source(contacts: seq<C.ContactRow>, memberships: seq<C.MembershipRow>, statuses: set<string>)

  /** Contacts are numbered once, from 1 on, and have names. */
  ghost predicate SourceOk(src: Source) {
    var rows := C.CardedContacts(src.contacts);
    && NoDup(C.Ids(rows))
    && forall i :: 0 <= i < |rows| ==> rows[i].id > 0 && rows[i].name != ""
  }

  ghost predicate RulesOk(rules: Rules) {
    forall name :: name in rules ==> RuleIsSound(rules[name])
  }

  datatype Settings = Settings(rules: Rules, thresholds: Thresholds)

  // ---- resolving every member ----

  /** Each member resolved, in order. */
  ghost predicate ResolvedFrom(members: seq<CiviMember>, rules: Rules, rs: seq<ResolvedMember>) {
    |rs| == |members| && forall i :: 0 <= i < |members| ==> Resolves(members[i], rules, rs[i])
  }

  method ResolveAll(members: seq<CiviMember>, rules: Rules) returns (rs: seq<ResolvedMember>)
    ensures ResolvedFrom(members, rules, rs)
  {
    rs := [];
    for i := 0 to |members|
      invariant |rs| == i && forall j :: 0 <= j < i ==> Resolves(members[j], rules, rs[j])
    {
      var r := Resolve(members[i], rules);
      rs := rs + [r];
    }
  }

  lemma {:induction false} WantedIsMember(rs: seq<ResolvedMember>, k: ContactId)
    requires k in IndexWanted(rs)
    ensures IndexWanted(rs)[k] in rs
  {
    var last := rs[|rs| - 1];
    if last.contact != k {
      WantedIsMember(rs[..|rs| - 1], k);
    }
  }

  /** Validated rules and sound contacts give members the client can serve. */
  lemma ResolvedAreOk(src: Source, members: seq<CiviMember>, rules: Rules, rs: seq<ResolvedMember>)
    requires SourceOk(src) && RulesOk(rules) && ResolvedFrom(members, rules, rs)
    requires forall i :: 0 <= i < |members| ==> members[i].contact > 0 && members[i].name != ""
    ensures MembersOk(rs, Some(ManagedPolicyIds(rules)))
    ensures forall r :: r in rs ==> r.name != ""
  {
    forall k | WantsDoor(k, IndexWanted(rs))
      ensures k > 0 && IndexWanted(rs)[k].policy.value in ManagedPolicyIds(rules)
    {
      WantedIsMember(rs, k);
      WantedByContact(rs);
      var i :| 0 <= i < |rs| && rs[i] == IndexWanted(rs)[k];
      TierPolicyIsManaged(members[i], rules, rs[i]);
    }
  }

  // ---- the walk over all contact ids ----

  lemma {:induction false} KeysOf(rs: seq<ResolvedMember>, users: seq<UnifiUser>, k: ContactId)
    ensures k in IndexWanted(rs) <==> exists i :: 0 <= i < |rs| && rs[i].contact == k
    ensures k in IndexPresent(users) <==> exists i :: 0 <= i < |users| && users[i].contact == k
  {
    if rs != [] {
      var front := rs[..|rs| - 1];
      KeysOf(front, users, k);
      if i :| 0 <= i < |front| && front[i].contact == k {
        assert rs[i].contact == k;
      }
    } else if users != [] {
      var front := users[..|users| - 1];
      KeysOf(rs, front, k);
      if i :| 0 <= i < |front| && front[i].contact == k {
        assert users[i].contact == k;
      }
    }
  }

  /** Every contact of either side once, in the order first seen: one of the orders a set may be walked in. */
  method WalkOrder(rs: seq<ResolvedMember>, users: seq<UnifiUser>) returns (order: seq<ContactId>)
    ensures ListsSet(order, IndexWanted(rs).Keys + IndexPresent(users).Keys)
  {
    order := [];
    for i := 0 to |rs|
      invariant NoDup(order)
      invariant forall k :: k in order <==> exists j :: 0 <= j < i && rs[j].contact == k
    {
      if rs[i].contact !in order {
        order := order + [rs[i].contact];
      }
    }
    for i := 0 to |users|
      invariant NoDup(order)
      invariant forall k :: k in order <==>
        (exists j :: 0 <= j < |rs| && rs[j].contact == k) || (exists j :: 0 <= j < i && users[j].contact == k)
    {
      if users[i].contact !in order {
        order := order + [users[i].contact];
      }
    }
    forall k ensures k in order <==> k in IndexWanted(rs).Keys + IndexPresent(users).Keys {
      KeysOf(rs, users, k);
    }
  }

  method Baseline(users: seq<UnifiUser>) returns (n: nat)
    ensures n == CountActive(users)
  {
    n := 0;
    for i := 0 to |users|
      invariant n == CountActive(users[..i])
    {
      assert users[..i + 1][..i] == users[..i];
      if users[i].active {
        n := n + 1;
      }
    }
    assert users[..|users|] == users;
  }

  // ---- one cycle ----

  function ReasonText(r: Reason): string {
    match r
    case UnmappedTypes => "unmapped membership types"
    case DuplicateCard => "duplicate card"
    case InvalidCard => "invalid card"
    case MassDeactivation => "mass deactivation"
    case MassAddition => "mass addition"
    case MassPolicyChange => "mass policy change"
  }

  const FETCH_FAILED := "crashed: fetch"
  const APPLY_FAILED := "crashed: apply"

  /** A client as it is made for one cycle, against a sound controller that lists its users faithfully. */
  ghost predicate ReadyFor(client: U.Client, rules: Rules)
    reads client, client.remote
  {
    && client.Valid() && !client.fetched && client.failures == []
    && client.View().cache == NO_CACHE
    && client.remote.log == [] && Sound(client.remote.ctl)
    && client.config.managed == Some(ManagedPolicyIds(rules)) && client.config.facility < Codec.FACILITY_CODES
    && Lists(client.remote.listing, client.remote.ctl, client.config.managed)
  }

  /** A difference against sound members, about to be applied or halted. */
  ghost predicate ToCheck(y: Round) {
    && Sound(y.s.ctl) && Compared(y)
    && MembersOk(y.members, y.cfg.managed) && forall r :: r in y.members ==> r.name != ""
  }

  /** Fetch both sides, resolve, and compare. */
  method FetchAndCompare(client: U.Client, rules: Rules, src: Source)
    returns (ok: bool, users: seq<UnifiUser>, d: Diff, ghost y: Round)
    requires ReadyFor(client, rules) && RulesOk(rules) && SourceOk(src)
    modifies client, client.remote
    ensures client.Valid() && client.remote.ctl == old(client.remote.ctl)
    ensures U.OnlyRead(old(client.remote.log), client.remote.log)
    ensures ok ==> client.fetched && ToCheck(y) && y.f == client.remote.faults && y.cfg == client.config
    ensures ok ==> y.s == client.View() && y.rows == client.remote.listing && y.d == d && users == UsersIn(y)
  {
    ok, users, d := false, [], Diff([], [], [], [], []);
    y := Round(client.remote.faults, client.config, client.View(), client.remote.listing, [], d);
    var fetched := C.FetchActive(src.contacts, src.memberships, src.statuses);
    if fetched.Err? {
      return;
    }
    var members := fetched.value;
    var rs := ResolveAll(members, rules);
    ResolvedAreOk(src, members, rules, rs);
    var out;
    users, out := client.FetchUsers();
    if out.Raised? {
      return;
    }
    FetchedFirst(client.View().cache, client.remote.ctl, client.remote.listing);
    FetchReadsAll(client.remote.listing, client.View().cache, client.remote.ctl, client.config.managed);
    var order := WalkOrder(rs, users);
    d := ComputeDiff(rs, users, order);
    y := Round(client.remote.faults, client.config, client.View(), client.remote.listing, rs, d);
    ok := true;
  }

  /** With named members, every difference that passes the guards can be applied. */
  lemma GuardsStart(y: Round)
    requires ToCheck(y) && y.d.unmapped == [] && DistinctCards(y.d) && CardsInRange(y.d)
    ensures Started(y)
  {
    Reported(y.members, UsersIn(y), y.d);
    forall w | w in Writers(y.d) ensures w.name != "" {
      Convergence.WritersAreMembers(y.members, UsersIn(y), y.d, w);
      WantedIsMember(y.members, w.contact);
    }
  }

  /** An apply that passed the guards took the controller from `c` to the client's view. */
  ghost predicate TookEffect(client: U.Client, y: Round, c: State, t: Thresholds)
    reads client, client.remote
  {
    && Started(y) && MembersOk(y.members, y.cfg.managed) && y.s.ctl == c && y.f == client.remote.faults
    && !TooManyChanges(y.d, CountActive(UsersIn(y)), t)
    && client.View() == Applied(y).s
  }

  /**
  One cycle. A halted cycle and a cycle that fails to fetch leave the controller as it was, and so does
  every dry run; otherwise a guarded difference takes the controller where the protocol takes it, and the
  cycle counts as applied exactly when no contact was reported.
  */
  method Reconcile(client: U.Client, settings: Settings, src: Source) returns (end: O.Ending, ghost y: Round)
    requires ReadyFor(client, settings.rules) && RulesOk(settings.rules) && SourceOk(src)
    modifies client, client.remote
    ensures client.Valid()
    ensures end.Halted? || client.dryRun ==> client.remote.ctl == old(client.remote.ctl)
    ensures end.Applied? ==> Started(y) && !TooManyChanges(y.d, CountActive(UsersIn(y)), settings.thresholds)
    ensures end.Applied? && !client.dryRun ==> TookEffect(client, y, old(client.remote.ctl), settings.thresholds)
    ensures client.remote.ctl != old(client.remote.ctl) ==>
              TookEffect(client, y, old(client.remote.ctl), settings.thresholds) &&
              (end.Applied? <==> Applied(y).out.Fine?)
  {
    var ok, users, d;
    ok, users, d, y := FetchAndCompare(client, settings.rules, src);
    if !ok {
      return O.Crashed(FETCH_FAILED), y;
    }
    var baseline := Baseline(users);
    var verdict := Check(d, baseline, settings.thresholds);
    if verdict.Halted? {
      return O.Halted(ReasonText(verdict.reason)), y;
    }
    GuardsStart(y);
    var out := client.Apply(d);
    end := if out.Fine? then O.Applied else O.Crashed(APPLY_FAILED);
  }

  /** The cycle as a link of a chain: applied when the controller changed, else stopped. */
  ghost function LinkOf(c: State, c': State, y: Round): CycleRun {
    if c == c' then Stopped(c) else Applies(y)
  }

  /** A cycle with its trace in the operators' files; the crash handler is part of it. */
  method RunCycle(client: U.Client, settings: Settings, src: Source, files: O.Files, at: O.Time,
                  flagFails: bool, stateFails: bool, secondFlagFails: bool)
    returns (end: O.Ending, ghost y: Round)
    requires ReadyFor(client, settings.rules) && RulesOk(settings.rules) && SourceOk(src)
    modifies client, client.remote, files
    ensures files.View() ==
            O.After(old(files.View()), O.CycleEnd(end, client.dryRun, at, flagFails, stateFails, secondFlagFails))
    ensures end.Halted? || client.dryRun ==> client.remote.ctl == old(client.remote.ctl)
    ensures !client.dryRun && end.Applied? ==> TookEffect(client, y, old(client.remote.ctl), settings.thresholds)
    ensures var link := LinkOf(old(client.remote.ctl), client.remote.ctl, y);
      CycleOk(settings.thresholds, link) && Before(link) == old(client.remote.ctl) && After(link) == client.remote.ctl
    ensures client.remote.ctl != old(client.remote.ctl) ==>
              (Sound(client.remote.ctl) <==> NobodyTwice(client.remote.faults, client.remote.log))
  {
    end, y := Reconcile(client, settings, src);
    if client.remote.ctl != old(client.remote.ctl) {
      ApplyKeepsSound(y);
    }
    files.EndCycle(O.CycleEnd(end, client.dryRun, at, flagFails, stateFails, secondFlagFails));
  }

  /** Cycles that start where the last one ended make a longer chain, so the population bound covers them. */
  lemma ChainGrows(t: Thresholds, runs: seq<CycleRun>, link: CycleRun)
    requires runs != [] && Chain(t, runs) && CycleOk(t, link) && Before(link) == After(runs[|runs| - 1])
    ensures Chain(t, runs + [link])
  {
    var longer := runs + [link];
    assert forall i :: 0 <= i < |runs| ==> longer[i] == runs[i];
    assert longer[|runs|] == link;
  }
}
