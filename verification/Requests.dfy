/**
Which requests each step of the protocol sends, and which of them decides the fate of an entry.
*/
module Requests {
  import opened Models
  import opened Controller
  import opened Protocol
  import opened Reconciler
  import opened Effects

  // ---- what each step sends ----

  datatype Kind = Reads | Creates | Updates | Statuses | Policing | Deletes | Binds | Imports

  function KindOf(r: Request): Kind {
    match r
    case GetUsers(_) => Reads
    case GetCards(_) => Reads
    case CreateUser(_) => Creates
    case UpdateUser(_, _) => Updates
    case SetStatus(_, _) => Statuses
    case SetPolicies(_, _) => Policing
    case DeleteCard(_, _) => Deletes
    case BindCard(_, _, _) => Binds
    case ImportCards(_) => Imports
  }

  /** The new requests are of the given kinds. */
  ghost predicate Sends(log: seq<Event>, log': seq<Event>, kinds: set<Kind>) {
    log <= log' && forall i :: |log| <= i < |log'| ==> KindOf(log'[i].request) in kinds
  }

  lemma SendsTransitive(a: seq<Event>, b: seq<Event>, c: seq<Event>, k1: set<Kind>, k2: set<Kind>)
    requires Sends(a, b, k1) && Sends(b, c, k2)
    ensures Sends(a, c, k1 + k2)
  {
  }

  /** The request was sent between the two logs. */
  ghost predicate SentSince(log: seq<Event>, log': seq<Event>, r: Request) {
    exists i :: |log| <= i < |log'| && log'[i].request == r
  }

  /** The request was sent between the two logs, and answered well. */
  ghost predicate DoneSince(log: seq<Event>, log': seq<Event>, r: Request) {
    exists i :: |log| <= i < |log'| && log'[i].request == r && !log'[i].reply.Failed?
  }

  /** One more request decides whether it is done, when the steps before could not have sent it. */
  lemma LastDecides(f: Faults, log: seq<Event>, s: Session, r: Request, kinds: set<Kind>)
    requires Sends(log, s.log, kinds) && KindOf(r) !in kinds
    ensures var (s', reply) := Send(f, s, r);
      && SentSince(log, s'.log, r) && (DoneSince(log, s'.log, r) <==> !reply.Failed?)
  {
    var (s', reply) := Send(f, s, r);
    assert s'.log[|s.log|] == Event(r, s.ctl, reply);
    assert forall i :: |log| <= i < |s.log| ==> s'.log[i] == s.log[i];
  }

  /** Steps that could not send the request do not change whether it is done. */
  lemma NotDoneBefore(log: seq<Event>, log': seq<Event>, log'': seq<Event>, r: Request, kinds: set<Kind>)
    requires Sends(log, log', kinds) && log' <= log'' && KindOf(r) !in kinds
    ensures DoneSince(log, log'', r) <==> DoneSince(log', log'', r)
    ensures SentSince(log, log'', r) <==> SentSince(log', log'', r)
  {
  }

  lemma WriteRecordSends(f: Faults, s: Session, u: UserId, fields: Fields)
    ensures Sends(s.log, WriteRecord(f, s, u, fields).s.log, {Updates})
    ensures fields != NOTHING ==> SentSince(s.log, WriteRecord(f, s, u, fields).s.log, UpdateUser(u, fields))
  {
    if fields != NOTHING {
      var s1 := Send(f, s, UpdateUser(u, fields)).0;
      assert s1.log[|s.log|].request == UpdateUser(u, fields);
      assert WriteRecord(f, s, u, fields).s.log[|s.log|] == s1.log[|s.log|];
    }
  }

  lemma {:induction false} SweepSends(f: Faults, s: Session, u: UserId, tokens: seq<Token>, keep: Option<Token>)
    ensures Sends(s.log, Sweep(f, s, u, tokens, keep).s.log, {Deletes})
    decreases |tokens|
  {
    if tokens != [] {
      if Some(tokens[0]) == keep {
        SweepSends(f, s, u, tokens[1..], keep);
      } else {
        var step := Call(f, s, DeleteCard(u, tokens[0]));
        if step.out.Fine? {
          SweepSends(f, step.s, u, tokens[1..], keep);
          SendsTransitive(s.log, step.s.log, Sweep(f, step.s, u, tokens[1..], keep).s.log, {Deletes}, {Deletes});
          assert {Deletes} + {Deletes} == {Deletes};
        }
      }
    }
  }

  lemma ReclaimSends(f: Faults, s: Session, u: UserId, t: Token, h: Holder)
    ensures var r := Reclaim(f, s, u, t, h);
      && Sends(s.log, r.s.log, {Binds})
      && (r.out.Fine? <==> DoneSince(s.log, r.s.log, BindCard(u, t, true)))
  {
    LastDecides(f, s.log, s, BindCard(u, t, true), {});
  }

  /** A bind succeeds exactly when one of its two requests was answered well. */
  lemma BindSends(f: Faults, s: Session, u: UserId, t: Token)
    ensures var r := Bind(f, s, u, t);
      && Sends(s.log, r.s.log, {Binds}) && SentSince(s.log, r.s.log, BindCard(u, t, false))
      && (r.out.Fine? <==> DoneSince(s.log, r.s.log, BindCard(u, t, false)) ||
                           DoneSince(s.log, r.s.log, BindCard(u, t, true)))
  {
    var plain := BindCard(u, t, false);
    LastDecides(f, s.log, s, plain, {});
    var s1 := Send(f, s, plain).0;
    assert s1.log == s.log + [s1.log[|s.log|]];
    var r := Bind(f, s, u, t);
    if t in s1.cache.holders {
      ReclaimSends(f, s1, u, t, s1.cache.holders[t]);
      OnlyFirst(s.log, s1.log, Reclaim(f, s1, u, t, s1.cache.holders[t]).s.log, u, t);
    }
  }

  lemma OnlyFirst(a: seq<Event>, b: seq<Event>, c: seq<Event>, u: UserId, t: Token)
    requires a <= b <= c && |b| == |a| + 1 && b[|a|].request == BindCard(u, t, false)
    ensures DoneSince(a, c, BindCard(u, t, true)) <==> DoneSince(b, c, BindCard(u, t, true))
    ensures SentSince(a, c, BindCard(u, t, false))
    ensures b[|a|].reply.Failed? && |c| == |b| + 1 && c[|b|].request == BindCard(u, t, true) ==>
              !DoneSince(a, c, BindCard(u, t, false))
  {
  }

  lemma AttachSends(f: Faults, s: Session, u: UserId, card: Option<CardId>)
    ensures var r := AttachCard(f, s, u, card); var wanted := WantedToken(s.cache, card);
      && Sends(s.log, r.s.log, {Binds})
      && (wanted.Some? ==> SentSince(s.log, r.s.log, BindCard(u, wanted.value, false)))
      && (wanted.Some? ==> (r.out.Fine? <==> BoundSince(s.log, r.s.log, u, wanted.value)))
  {
    var wanted := WantedToken(s.cache, card);
    if wanted.Some? {
      BindSends(f, s, u, wanted.value);
    }
  }

  /** The card was bound, plainly or by taking it over. */
  ghost predicate BoundSince(log: seq<Event>, log': seq<Event>, u: UserId, t: Token) {
    DoneSince(log, log', BindCard(u, t, false)) || DoneSince(log, log', BindCard(u, t, true))
  }

  lemma AssignSends(f: Faults, s: Session, u: UserId, policy: Option<string>)
    ensures var r := AssignPolicy(f, s, u, policy);
      && Sends(s.log, r.s.log, {Policing})
      && (policy.Some? ==> SentSince(s.log, r.s.log, SetPolicies(u, [policy.value])))
      && (policy.Some? ==> (r.out.Fine? <==> DoneSince(s.log, r.s.log, SetPolicies(u, [policy.value]))))
  {
    if policy.Some? {
      LastDecides(f, s.log, s, SetPolicies(u, [policy.value]), {});
    }
  }

  // ---- what decides the fate of each kind of entry ----

  /** A deactivation always asks for the status, even when freeing a card failed, and that request decides. */
  lemma DeactivateSends(f: Faults, s: Session, k: ContactId, u: UserId)
    ensures var r := DeactivateUser(f, s, k, u);
      && SentSince(s.log, r.s.log, SetStatus(u, DEACTIVATED))
      && (r.out.Fine? <==> DoneSince(s.log, r.s.log, SetStatus(u, DEACTIVATED)))
  {
    SweepSends(f, s, u, CachedCards(s.cache, k), None);
    LastDecides(f, s.log, Sweep(f, s, u, CachedCards(s.cache, k), None).s, SetStatus(u, DEACTIVATED), {Deletes});
  }

  /** The account of a returning member is switched on by the last request, or not at all. */
  lemma ReactivateSends(f: Faults, s: Session, r: ResolvedMember, u: UserId)
    requires r.name != ""
    ensures var step := Reactivate(f, s, r, u);
      && SentSince(s.log, step.s.log, UpdateUser(u, ReactivationFields(r)))
      && (step.out.Fine? <==> DoneSince(s.log, step.s.log, SetStatus(u, ACTIVE)))
  {
    var fields := ReactivationFields(r);
    WriteRecordSends(f, s, u, fields);
    var s1 := WriteRecord(f, s, u, fields).s;
    var keep := WantedToken(s1.cache, r.card);
    var tokens := CachedCards(s1.cache, r.contact);
    SweepSends(f, s1, u, tokens, keep);
    var s2 := Sweep(f, s1, u, tokens, keep).s;
    SendsTransitive(s.log, s1.log, s2.log, {Updates}, {Deletes});
    SwitchOnSends(f, s2, r, u);
    var s3 := SwitchOn(f, s2, r, u).s;
    SentStays(s.log, s1.log, s2.log, UpdateUser(u, fields));
    SentStays(s.log, s2.log, s3.log, UpdateUser(u, fields));
    NotDoneBefore(s.log, s2.log, s3.log, SetStatus(u, ACTIVE), {Updates, Deletes});
    assert {Updates} + {Deletes} == {Updates, Deletes};
  }

  lemma SentStays(log: seq<Event>, log': seq<Event>, log'': seq<Event>, r: Request)
    requires SentSince(log, log', r) && log' <= log''
    ensures SentSince(log, log'', r)
  {
  }

  lemma SwitchOnSends(f: Faults, s: Session, r: ResolvedMember, u: UserId)
    ensures var step := SwitchOn(f, s, r, u);
      && s.log <= step.s.log
      && (step.out.Fine? <==> DoneSince(s.log, step.s.log, SetStatus(u, ACTIVE)))
  {
    AttachSends(f, s, u, r.card);
    var attached := AttachCard(f, s, u, r.card);
    AssignSends(f, attached.s, u, r.policy);
    var granted := AssignPolicy(f, attached.s, u, r.policy);
    SendsTransitive(s.log, attached.s.log, granted.s.log, {Binds}, {Policing});
    LastDecides(f, s.log, granted.s, SetStatus(u, ACTIVE), {Binds} + {Policing});
  }

  /** A new account is complete exactly when its policy was set. */
  lemma EquipSends(f: Faults, s: Session, r: ResolvedMember, u: UserId)
    requires r.policy.Some?
    ensures var step := Equip(f, s, r, u);
      && s.log <= step.s.log
      && (step.out.Fine? <==> DoneSince(s.log, step.s.log, SetPolicies(u, [r.policy.value])))
  {
    AttachSends(f, s, u, r.card);
    var attached := AttachCard(f, s, u, r.card);
    AssignSends(f, attached.s, u, r.policy);
    NotDoneBefore(s.log, attached.s.log, AssignPolicy(f, attached.s, u, r.policy).s.log,
                  SetPolicies(u, [r.policy.value]), {Binds});
  }

  lemma CreateSends(f: Faults, s: Session, r: ResolvedMember)
    requires r.name != ""
    ensures SentSince(s.log, Create(f, s, r).s.log, CreateUser(CreationFields(r)))
  {
    var s0 := Send(f, s, CreateUser(CreationFields(r))).0;
    var (s1, reply) := WriteUser(f, s, None, CreationFields(r));
    assert s0.log[|s.log|].request == CreateUser(CreationFields(r));
    assert s1.log[|s.log|] == s0.log[|s.log|];
    if reply.Created? {
      var u := reply.user;
      AttachSends(f, Registered(s1, r.contact, u), u, r.card);
      var attached := AttachCard(f, Registered(s1, r.contact, u), u, r.card);
      AssignSends(f, attached.s, u, r.policy);
      SentStays(s.log, s1.log, Create(f, s, r).s.log, CreateUser(CreationFields(r)));
    }
  }

  /**
  A credential entry sends something, unless the card is all that changes, none is cached and none is
  wanted; and when it brings a card, the bind decides.
  */
  /** The card part of an entry sends something unless nothing is cached and nothing wanted; the bind decides. */
  lemma SwapDecides(f: Faults, s: Session, u: UserId, k: ContactId, card: Option<CardId>)
    requires card.Some? ==> WantedToken(s.cache, card).Some?
    ensures var tokens := CachedCards(s.cache, k); var swept := Sweep(f, s, u, tokens, None);
      var r := if swept.out.Raised? then swept else AttachCard(f, swept.s, u, card);
      && s.log <= r.s.log
      && (r.s.log == s.log <==> tokens == [] && card.None?)
      && (card.Some? ==> (r.out.Fine? <==> BoundSince(s.log, r.s.log, u, WantedToken(s.cache, card).value)))
  {
    var tokens := CachedCards(s.cache, k);
    var swept := Sweep(f, s, u, tokens, None);
    SweepSends(f, s, u, tokens, None);
    SweepSendsSome(f, s, u, tokens);
    SweepEffect(f, s, u, tokens, None);
    AttachSends(f, swept.s, u, card);
    if card.Some? {
      var t := WantedToken(s.cache, card).value;
      NotBoundBefore(s.log, swept.s.log, swept.s.log, u, t);
      NotBoundBefore(s.log, swept.s.log, AttachCard(f, swept.s, u, card).s.log, u, t);
    }
  }

  /**
  A credential entry sends something, unless the card is all that changes, none is cached and none is
  wanted; and when it brings a card, the bind decides.
  */
  lemma CredentialSends(f: Faults, s: Session, p: Pair, u: UserId)
    requires p.member.name != "" && CredentialDiffers(p.member, p.user)
    requires p.member.card.Some? ==> WantedToken(s.cache, p.member.card).Some?
    ensures var r := UpdateCredential(f, s, p, u); var wanted := WantedToken(s.cache, p.member.card);
            var nothing := CredentialFields(p.member, p.user) == NOTHING;
      && (nothing ==> p.member.card != p.user.card)
      && s.log <= r.s.log
      && (r.s.log == s.log <==> nothing && p.member.card.None? && CachedCards(s.cache, p.member.contact) == [])
      && (!nothing ==> SentSince(s.log, r.s.log, UpdateUser(u, CredentialFields(p.member, p.user))))
      && (p.member.card != p.user.card && p.member.card.Some? ==>
            (r.out.Fine? <==> BoundSince(s.log, r.s.log, u, wanted.value)))
  {
    var fields := CredentialFields(p.member, p.user);
    var wanted := WantedToken(s.cache, p.member.card);
    WriteRecordSends(f, s, u, fields);
    var s1 := WriteRecord(f, s, u, fields).s;
    assert s1.cache == s.cache;
    SwapDecides(f, s1, u, p.member.contact, p.member.card);
    if wanted.Some? {
      NotBoundBefore(s.log, s1.log, s1.log, u, wanted.value);
      NotBoundBefore(s.log, s1.log, UpdateCredential(f, s, p, u).s.log, u, wanted.value);
    }
    if fields != NOTHING {
      SentStays(s.log, s1.log, UpdateCredential(f, s, p, u).s.log, UpdateUser(u, fields));
    }
  }

  lemma NotBoundBefore(log: seq<Event>, log': seq<Event>, log'': seq<Event>, u: UserId, t: Token)
    requires Sends(log, log', {Updates} + {Deletes}) && log' <= log''
    ensures BoundSince(log, log'', u, t) <==> BoundSince(log', log'', u, t)
  {
  }

  lemma SweepSendsSome(f: Faults, s: Session, u: UserId, tokens: seq<Token>)
    ensures Sweep(f, s, u, tokens, None).s.log == s.log <==> tokens == []
  {
    if tokens != [] {
      var step := Call(f, s, DeleteCard(u, tokens[0]));
      SweepSends(f, step.s, u, tokens[1..], None);
      assert |step.s.log| == |s.log| + 1;
    }
  }
}
