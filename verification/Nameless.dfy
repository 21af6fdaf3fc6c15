/**
An empty name cannot be split, and the error is none of the API's: it leaves the loop over the contacts and
ends the apply. Exactly when that happens, and what has been done by then.
*/
module Nameless {
  import opened Models
  import opened Controller
  import opened Protocol
  import opened Reconciler
  import opened Snapshot
  import opened Cycle
  import opened CardIndex
  import Codec
  import Safety

  /** An addition without a name, or a credential entry that would take the name away. */
  predicate LacksName(t: Task) {
    match t
    case Credential(p) => p.member.name == "" && p.user.name != ""
    case Add(r) => r.name == ""
    case _ => false
  }

  /** More was sent, and no account was forgotten. */
  ghost predicate Grows(s: Session, s': Session) {
    s.log <= s'.log && s.cache.userIds.Keys <= s'.cache.userIds.Keys
  }

  // ---- every step grows ----

  lemma WriteUserGrows(f: Faults, s: Session, target: Option<UserId>, fields: Fields)
    ensures Grows(s, WriteUser(f, s, target, fields).0)
  {
  }

  lemma {:induction false} SweepGrows(f: Faults, s: Session, u: UserId, tokens: seq<Token>, keep: Option<Token>)
    ensures Grows(s, Sweep(f, s, u, tokens, keep).s)
    decreases |tokens|
  {
    if tokens != [] {
      if Some(tokens[0]) == keep {
        SweepGrows(f, s, u, tokens[1..], keep);
      } else {
        var step := Call(f, s, DeleteCard(u, tokens[0]));
        if step.out.Fine? {
          SweepGrows(f, step.s, u, tokens[1..], keep);
        }
      }
    }
  }

  lemma AttachGrows(f: Faults, s: Session, u: UserId, card: Option<CardId>)
    ensures Grows(s, AttachCard(f, s, u, card).s)
  {
    if card.Some? && KnownToken(s.cache, card.value).Some? {
      BindIsPlainOrReclaim(f, s, u, KnownToken(s.cache, card.value).value);
    }
  }

  lemma CredentialGrows(f: Faults, s: Session, p: Pair, u: UserId)
    requires p.member.name != "" || p.user.name == ""
    ensures Grows(s, UpdateCredential(f, s, p, u).s)
  {
    var written := WriteRecord(f, s, u, CredentialFields(p.member, p.user));
    assert Grows(s, written.s) by {
      WriteUserGrows(f, s, Some(u), CredentialFields(p.member, p.user));
    }
    if written.out.Fine? && p.member.card != p.user.card {
      SweepGrows(f, written.s, u, CachedCards(written.s.cache, p.member.contact), None);
      var swept := Sweep(f, written.s, u, CachedCards(written.s.cache, p.member.contact), None);
      AttachGrows(f, swept.s, u, p.member.card);
    }
  }

  lemma SwitchOnGrows(f: Faults, s: Session, r: ResolvedMember, u: UserId)
    ensures Grows(s, SwitchOn(f, s, r, u).s)
  {
    AttachGrows(f, s, u, r.card);
  }

  lemma ReactivateGrows(f: Faults, s: Session, r: ResolvedMember, u: UserId)
    requires r.name != ""
    ensures Grows(s, Reactivate(f, s, r, u).s)
  {
    var fields := Fields(Some(Codec.SplitName(r.name)), Some(r.contact), Some(EmailText(r.email)));
    WriteUserGrows(f, s, Some(u), fields);
    var written := WriteRecord(f, s, u, fields);
    if written.out.Fine? {
      var keep := if r.card.None? then None else KnownToken(written.s.cache, r.card.value);
      SweepGrows(f, written.s, u, CachedCards(written.s.cache, r.contact), keep);
      SwitchOnGrows(f, Sweep(f, written.s, u, CachedCards(written.s.cache, r.contact), keep).s, r, u);
    }
  }

  lemma CreateGrows(f: Faults, s: Session, r: ResolvedMember)
    requires r.name != ""
    ensures Grows(s, Create(f, s, r).s)
  {
    var fields := Fields(Some(Codec.SplitName(r.name)), Some(r.contact), r.email);
    WriteUserGrows(f, s, None, fields);
    var (s1, reply) := WriteUser(f, s, None, fields);
    if reply.Created? {
      AttachGrows(f, s1.(cache := s1.cache.(userIds := s1.cache.userIds[r.contact := reply.user])), reply.user, r.card);
    }
  }

  lemma DeactivateGrows(f: Faults, s: Session, k: ContactId, u: UserId)
    ensures Grows(s, DeactivateUser(f, s, k, u).s)
  {
    SweepGrows(f, s, u, CachedCards(s.cache, k), None);
  }

  lemma TaskGrows(f: Faults, s: Session, t: Task)
    requires !Crashes(s, t)
    ensures Grows(s, RunTask(f, s, t))
  {
    var k := TaskContact(t);
    if k in s.cache.userIds {
      var u := s.cache.userIds[k];
      match t
      case Deactivate(_) => DeactivateGrows(f, s, k, u);
      case Credential(p) => CredentialGrows(f, s, p, u);
      case Policy(_) =>
      case Add(r) => ReactivateGrows(f, s, r, u);
    } else if t.Add? {
      CreateGrows(f, s, t.member);
    }
  }

  lemma {:induction false} RunGrows(f: Faults, s: Session, ts: seq<Task>)
    ensures Grows(s, RunUntilCrash(f, s, ts).0)
  {
    if ts != [] {
      RunGrows(f, s, ts[..|ts| - 1]);
      var before := RunUntilCrash(f, s, ts[..|ts| - 1]);
      if !before.1 && !Crashes(before.0, ts[|ts| - 1]) {
        TaskGrows(f, before.0, ts[|ts| - 1]);
      }
    }
  }

  // ---- when a run crashes ----

  /** A run over known accounts crashes exactly when one of its entries lacks a name, whatever the requests answer. */
  lemma {:induction false} CrashesExactlyWhenNameless(f: Faults, s: Session, ts: seq<Task>)
    requires forall i :: 0 <= i < |ts| && ts[i].Credential? ==> TaskContact(ts[i]) in s.cache.userIds
    ensures RunUntilCrash(f, s, ts).1 <==> exists i :: 0 <= i < |ts| && LacksName(ts[i])
  {
    if ts != [] {
      var front, last := ts[..|ts| - 1], ts[|ts| - 1];
      assert forall i :: 0 <= i < |front| ==> front[i] == ts[i];
      CrashesExactlyWhenNameless(f, s, front);
      RunGrows(f, s, front);
      assert LacksName(last) <==> LacksName(ts[|front|]);
    }
  }

  /** The run ends before the first entry that crashes, with all entries before it done and none after it. */
  lemma {:induction false} CrashCutsTheRun(f: Faults, s: Session, ts: seq<Task>) returns (n: nat)
    requires RunUntilCrash(f, s, ts).1
    ensures n < |ts| && var before := RunUntilCrash(f, s, ts[..n]);
      !before.1 && Crashes(before.0, ts[n]) && RunUntilCrash(f, s, ts) == (before.0, true)
  {
    var front := ts[..|ts| - 1];
    if RunUntilCrash(f, s, front).1 {
      n := CrashCutsTheRun(f, s, front);
      assert front[..n] == ts[..n];
    } else {
      n := |front|;
    }
  }

  /** Nobody after a nameless newcomer is even tried, whatever the requests would have answered. */
  lemma {:induction false} NamelessStopsTheRest(f: Faults, s: Session, r: ResolvedMember, rest: seq<Task>)
    requires r.name == ""
    ensures RunUntilCrash(f, s, [Add(r)] + rest) == (s, true)
  {
    var ts := [Add(r)] + rest;
    if rest == [] {
      assert ts[..0] == [];
    } else {
      assert ts[..|ts| - 1] == [Add(r)] + rest[..|rest| - 1];
      NamelessStopsTheRest(f, s, r, rest[..|rest| - 1]);
    }
  }

  // ---- the apply ----

  /** A member to be let in has no name, or one with an account lost its name. */
  ghost predicate NameMissing(d: Diff) {
    (exists i :: 0 <= i < |d.toAdd| && d.toAdd[i].name == "") ||
    (exists i :: 0 <= i < |d.toUpdateCredential| &&
       d.toUpdateCredential[i].member.name == "" && d.toUpdateCredential[i].user.name != "")
  }

  lemma MissingIsLacking(d: Diff)
    ensures NameMissing(d) <==> exists i :: 0 <= i < |Tasks(d)| && LacksName(Tasks(d)[i])
  {
    var ts := Tasks(d);
    var a, b, c := |d.toDeactivate|, |d.toUpdateCredential|, |d.toUpdatePolicy|;
    forall i | 0 <= i < |d.toAdd| && d.toAdd[i].name == "" ensures LacksName(ts[a + b + c + i]) {
    }
    forall i | 0 <= i < b && d.toUpdateCredential[i].member.name == "" && d.toUpdateCredential[i].user.name != ""
      ensures LacksName(ts[a + i])
    {
    }
    forall i | 0 <= i < |ts| && LacksName(ts[i]) ensures NameMissing(d) {
      if i < a + b {
        assert ts[i] == Credential(d.toUpdateCredential[i - a]);
      } else {
        assert ts[i] == Add(d.toAdd[i - a - b - c]);
      }
    }
  }

  /** The client knows the account of everybody whose record it is about to change. */
  lemma UpdatedAreKnown(y: Round)
    requires Sound(y.s.ctl) && Compared(y)
    ensures forall i :: 0 <= i < |Tasks(y.d)| && Tasks(y.d)[i].Credential? ==>
              TaskContact(Tasks(y.d)[i]) in y.s.cache.userIds
  {
    var ts := Tasks(y.d);
    Reported(y.members, UsersIn(y), y.d);
    FetchAgrees(y.s.cache, y.s.ctl, y.rows, y.cfg.managed);
    forall i | 0 <= i < |ts| && ts[i].Credential? ensures TaskContact(ts[i]) in y.s.cache.userIds {
      assert ts[i].pair in y.d.toUpdateCredential;
      FetchShows(y.rows, y.s.ctl, y.cfg.managed, TaskContact(ts[i]));
    }
  }

  /**
  The one failure that is not confined to its contact. Once the import is done, an apply visits every entry
  unless a name is missing; then it stops there and raises, but only after every deactivation was carried out.
  */
  lemma ApplyStopsExactlyWhenNameless(y: Round)
    requires Sound(y.s.ctl) && Compared(y) && RunStart(y).out.Fine?
    ensures var p := RunStart(y).s; var run := RunUntilCrash(y.f, p, Tasks(y.d));
      && Applied(y).s == run.0 && (run.1 <==> NameMissing(y.d))
      && (NameMissing(y.d) ==> Applied(y).out.Raised?)
      && AllNamed(Deactivations(y.d)) && Grows(RunTasks(y.f, p, Deactivations(y.d)), run.0)
  {
    UpdatedAreKnown(y);
    ImportKeepsCaches(y);
    MissingStops(y.f, RunStart(y).s, y.d);
    DeactivationsFirst(y.f, RunStart(y).s, y.d);
  }

  lemma MissingStops(f: Faults, p: Session, d: Diff)
    requires forall i :: 0 <= i < |Tasks(d)| && Tasks(d)[i].Credential? ==> TaskContact(Tasks(d)[i]) in p.cache.userIds
    ensures RunUntilCrash(f, p, Tasks(d)).1 <==> NameMissing(d)
  {
    CrashesExactlyWhenNameless(f, p, Tasks(d));
    MissingIsLacking(d);
  }

  lemma DeactivationsFirst(f: Faults, p: Session, d: Diff)
    ensures AllNamed(Deactivations(d)) && Grows(RunTasks(f, p, Deactivations(d)), RunUntilCrash(f, p, Tasks(d)).0)
  {
    var rest := Credentials(d) + Policies(d) + Additions(d);
    NamedNeverCrash(f, p, Deactivations(d));
    RunContinues(f, p, Deactivations(d), rest);
    assert Tasks(d) == Deactivations(d) + rest;
  }

  /** More entries only add to what a run does. */
  lemma {:induction false} RunContinues(f: Faults, s: Session, a: seq<Task>, b: seq<Task>)
    ensures Grows(RunUntilCrash(f, s, a).0, RunUntilCrash(f, s, a + b).0)
  {
    if b == [] {
      assert a + b == a;
    } else {
      var all, front := a + b, a + b[..|b| - 1];
      assert all[..|all| - 1] == front;
      RunContinues(f, s, a, b[..|b| - 1]);
      var before := RunUntilCrash(f, s, front);
      if !before.1 && !Crashes(before.0, all[|all| - 1]) {
        TaskGrows(f, before.0, all[|all| - 1]);
      }
    }
  }

  lemma ImportKeepsCaches(y: Round)
    ensures RunStart(y).s.cache.userIds == y.s.cache.userIds
  {
    ReadPagesResult(y.f, y.s.(failures := []), |y.s.ctl.cards|, 1);
    var loaded := EnsureTokenMap(y.f, y.s.(failures := []));
    if loaded.s.cache.tokenMap.Some? {
      ImportKeepsIds(y.f, y.cfg, loaded.s, NeededCards(Safety.Writers(y.d), loaded.s.cache.tokenMap.value));
    }
  }

  lemma ImportKeepsIds(f: Faults, cfg: Config, s: Session, cards: seq<CardId>)
    requires s.cache.tokenMap.Some?
    ensures Import(f, cfg, s, cards).s.cache.userIds == s.cache.userIds
  {
    var (s1, reply) := Send(f, s, ImportCards(ImportLines(cfg.facility, cards)));
    if reply.Imported? {
      TakeKeepsIds(s1.cache, cfg.facility, reply.rows);
    }
  }

  lemma {:induction false} TakeKeepsIds(cache: Cache, facility: nat, rows: seq<ImportRow>)
    requires cache.tokenMap.Some?
    ensures TakeImported(cache, facility, rows).0.userIds == cache.userIds
  {
    if rows != [] {
      TakeKeepsIds(cache, facility, rows[..|rows| - 1]);
    }
  }
}
