/**
Within one run each contact's cards are swept at most once, no card is deleted twice, and as long
as no answer is lost every delete names a card the user really holds, never one already reclaimed.
*/
module CardProtocol {
  import opened Models
  import opened Controller
  import opened Protocol
  import opened Safety
  import opened Reconciler
  import opened Snapshot
  import opened CardIndex
  import opened Effects
  import opened ForceBind

  ghost predicate NeverLost(f: Faults) {
    forall n :: f(n).Answer? || f(n).Refuse?
  }

  // ---- the properties of the log ----

  ghost predicate NoDoubleDelete(log: seq<Event>) {
    forall i, j :: 0 <= i < j < |log| && log[i].request.DeleteCard? ==> log[i].request != log[j].request
  }

  ghost predicate DeletesAreHeld(log: seq<Event>) {
    forall i :: 0 <= i < |log| && log[i].request.DeleteCard? ==>
      Holds(log[i].before, log[i].request.user, log[i].request.token)
  }

  // ---- the invariant ----

  /** Deletes so far concern swept contacts only. */
  ghost predicate DeletesAreSwept(ids: map<ContactId, UserId>, swept: set<ContactId>, log: seq<Event>) {
    forall i :: 0 <= i < |log| && log[i].request.DeleteCard? ==>
      exists k :: k in swept && k in ids && ids[k] == log[i].request.user
  }

  /** The cached list of a contact that was not swept yet names cards its user holds. */
  ghost predicate ListsAreHeld(swept: set<ContactId>, c: State, cache: Cache) {
    forall k, t :: k in cache.cards && k !in swept && t in cache.cards[k] ==>
      k in cache.userIds && Holds(c, cache.userIds[k], t)
  }

  /** Holder entries carry the employee number of the contact whose user holds the card. */
  ghost predicate HoldersNamed(x: Run, holders: map<Token, Holder>) {
    forall k, t :: k in x.cache0.userIds && t in holders && holders[t].user == x.cache0.userIds[k] ==>
      holders[t].employee == Some(k)
  }

  ghost predicate Tidy(x: Run, f: Faults, swept: set<ContactId>, s: Session) {
    && Good(x, s)
    && (forall k :: k in s.cache.cards ==> k in x.cache0.userIds && NoDup(s.cache.cards[k]))
    && HoldersNamed(x, s.cache.holders)
    && NoDoubleDelete(s.log)
    && DeletesAreSwept(s.cache.userIds, swept, s.log)
    && (NeverLost(f) ==> DeletesAreHeld(s.log) && ListsAreHeld(swept, s.ctl, s.cache))
  }

  // ---- requests that do not touch cards ----

  /** A step that deletes nothing and takes no card away. */
  lemma NothingTaken(x: Run, f: Faults, swept: set<ContactId>, s: Session, s': Session)
    requires Tidy(x, f, swept, s) && Good(x, s') && s'.cache == s.cache
    requires |s'.log| == |s.log| + 1 && s.log == s'.log[..|s.log|] && !s'.log[|s.log|].request.DeleteCard?
    requires forall u, t :: Holds(s.ctl, u, t) ==> Holds(s'.ctl, u, t)
    ensures Tidy(x, f, swept, s')
  {
    LogGrows(s, s', swept);
  }

  lemma SendTakesNothing(f: Faults, s: Session, r: Request)
    requires !r.DeleteCard? && (r.BindCard? ==> !r.force)
    ensures forall u, t :: Holds(s.ctl, u, t) ==> Holds(Send(f, s, r).0.ctl, u, t)
  {
    if r.CreateUser? {
      CreateDelivered(f(|s.log|), s.ctl, r.fields);
    }
  }

  lemma SendKeepsTidy(x: Run, f: Faults, swept: set<ContactId>, s: Session, r: Request)
    requires Tidy(x, f, swept, s) && Allowed(x, s.ctl, s.cache, r)
    requires !r.DeleteCard? && !r.BindCard?
    ensures Tidy(x, f, swept, Send(f, s, r).0)
  {
    SendKeepsGood(x, f, s, r);
    SendTakesNothing(f, s, r);
    NothingTaken(x, f, swept, s, Send(f, s, r).0);
  }

  /** One more event that deletes nothing. */
  lemma LogGrows(s: Session, s': Session, swept: set<ContactId>)
    requires |s'.log| == |s.log| + 1 && s.log == s'.log[..|s.log|] && !s'.log[|s.log|].request.DeleteCard?
    ensures NoDoubleDelete(s.log) ==> NoDoubleDelete(s'.log)
    ensures DeletesAreHeld(s.log) ==> DeletesAreHeld(s'.log)
    ensures DeletesAreSwept(s.cache.userIds, swept, s.log) ==> DeletesAreSwept(s.cache.userIds, swept, s'.log)
  {
  }

  lemma WriteUserKeepsTidy(x: Run, f: Faults, swept: set<ContactId>, s: Session, target: Option<UserId>, fields: Fields)
    requires Tidy(x, f, swept, s)
    ensures Tidy(x, f, swept, WriteUser(f, s, target, fields).0)
  {
    SendKeepsTidy(x, f, swept, s, WriteRequest(target, fields));
    var s1 := Send(f, s, WriteRequest(target, fields)).0;
    SendKeepsTidy(x, f, swept, s1, WriteRequest(target, fields.(email := None)));
  }

  lemma AssignKeepsTidy(x: Run, f: Faults, swept: set<ContactId>, s: Session, u: UserId, policy: Option<string>)
    requires Tidy(x, f, swept, s)
    ensures Tidy(x, f, swept, AssignPolicy(f, s, u, policy).s)
  {
    if policy.Some? {
      SendKeepsTidy(x, f, swept, s, SetPolicies(u, [policy.value]));
    }
  }

  // ---- sweeping ----

  /** During a sweep: the cards still to be deleted are held and were not asked for yet. */
  ghost predicate Sweeping(x: Run, f: Faults, swept: set<ContactId>, k: ContactId, s: Session, tokens: seq<Token>) {
    && Tidy(x, f, swept, s) && k in swept && k in s.cache.userIds
    && NoDup(tokens)
    && (forall t, i :: t in tokens && 0 <= i < |s.log| ==> s.log[i].request != DeleteCard(s.cache.userIds[k], t))
    && (NeverLost(f) ==> forall t :: t in tokens ==> Holds(s.ctl, s.cache.userIds[k], t))
  }

  /** A delete takes at most that card of that user. */
  lemma DeleteSent(f: Faults, s: Session, u: UserId, t: Token)
    ensures var s' := Send(f, s, DeleteCard(u, t)).0;
      && s'.cache == s.cache && |s'.log| == |s.log| + 1 && s'.log[..|s.log|] == s.log
      && s'.log[|s.log|].request == DeleteCard(u, t) && s'.log[|s.log|].before == s.ctl
      && (forall v, a :: Holds(s.ctl, v, a) && (v != u || a != t) ==> Holds(s'.ctl, v, a))
  {
  }

  /** The log after one more delete, of a card not asked for yet by the contact being swept. */
  lemma OneDeleteLogged(ids: map<ContactId, UserId>, swept: set<ContactId>, k: ContactId, log: seq<Event>, e: Event)
    requires NoDoubleDelete(log) && DeletesAreSwept(ids, swept, log) && k in swept && k in ids
    requires e.request.DeleteCard? && e.request.user == ids[k]
    requires forall i :: 0 <= i < |log| ==> log[i].request != e.request
    ensures NoDoubleDelete(log + [e]) && DeletesAreSwept(ids, swept, log + [e])
    ensures DeletesAreHeld(log) && Holds(e.before, e.request.user, e.request.token) ==> DeletesAreHeld(log + [e])
  {
  }

  lemma OneDeleteMore(x: Run, f: Faults, swept: set<ContactId>, k: ContactId, s: Session, s': Session,
                      tokens: seq<Token>)
    requires Sweeping(x, f, swept, k, s, tokens) && tokens != [] && Good(x, s') && s'.cache == s.cache
    requires |s'.log| == |s.log| + 1 && s'.log[..|s.log|] == s.log && s'.log[|s.log|].before == s.ctl
    requires s'.log[|s.log|].request == DeleteCard(s.cache.userIds[k], tokens[0])
    requires forall v, a :: Holds(s.ctl, v, a) && (v != s.cache.userIds[k] || a != tokens[0]) ==> Holds(s'.ctl, v, a)
    ensures Tidy(x, f, swept, s') && Sweeping(x, f, swept, k, s', tokens[1..])
  {
    var u, t := s.cache.userIds[k], tokens[0];
    OneDeleteLogged(s.cache.userIds, swept, k, s.log, s'.log[|s.log|]);
    assert s'.log == s.log + [s'.log[|s.log|]];
    assert forall a :: a in tokens[1..] ==> a in tokens && a != t by {
      assert tokens == [t] + tokens[1..];
    }
    forall j, a | NeverLost(f) && j in s.cache.cards && j !in swept && a in s.cache.cards[j]
      ensures Holds(s'.ctl, s.cache.userIds[j], a)
    {
      assert s.cache.userIds[j] != u;
    }
  }

  lemma DeleteKeepsTidy(x: Run, f: Faults, swept: set<ContactId>, k: ContactId, s: Session, tokens: seq<Token>)
    requires Sweeping(x, f, swept, k, s, tokens) && tokens != []
    ensures var s' := Send(f, s, DeleteCard(s.cache.userIds[k], tokens[0])).0;
      Tidy(x, f, swept, s') && Sweeping(x, f, swept, k, s', tokens[1..])
  {
    var u, t := s.cache.userIds[k], tokens[0];
    SendKeepsGood(x, f, s, DeleteCard(u, t));
    DeleteSent(f, s, u, t);
    OneDeleteMore(x, f, swept, k, s, Send(f, s, DeleteCard(u, t)).0, tokens);
  }

  lemma {:induction false} SweepKeepsTidy(x: Run, f: Faults, swept: set<ContactId>, k: ContactId, s: Session,
                                          tokens: seq<Token>, keep: Option<Token>)
    requires Sweeping(x, f, swept, k, s, tokens)
    ensures Tidy(x, f, swept, Sweep(f, s, s.cache.userIds[k], tokens, keep).s)
    decreases |tokens|
  {
    if tokens != [] {
      var u := s.cache.userIds[k];
      if Some(tokens[0]) == keep {
        assert tokens == [tokens[0]] + tokens[1..];
        SweepKeepsTidy(x, f, swept, k, s, tokens[1..], keep);
      } else {
        DeleteKeepsTidy(x, f, swept, k, s, tokens);
        SendKeepsGood(x, f, s, DeleteCard(u, tokens[0]));
        var step := Call(f, s, DeleteCard(u, tokens[0]));
        if step.out.Fine? {
          SweepKeepsTidy(x, f, swept, k, step.s, tokens[1..], keep);
        }
      }
    }
  }

  /** Starting the sweep of a contact's cached list, once. */
  lemma SweepStarts(x: Run, f: Faults, swept: set<ContactId>, k: ContactId, s: Session)
    requires Tidy(x, f, swept, s) && k !in swept && k in s.cache.userIds
    ensures Sweeping(x, f, swept + {k}, k, s, CachedCards(s.cache, k))
  {
  }

  // ---- binding ----

  /** The unforced bind takes a card from nobody. */
  lemma PlainBindKeepsTidy(x: Run, f: Faults, swept: set<ContactId>, s: Session, u: UserId, t: Token)
    requires RunOk(x) && Tidy(x, f, swept, s) && Entitled(x, s.cache.userIds, u, t)
    ensures Tidy(x, f, swept, Send(f, s, BindCard(u, t, false)).0)
  {
    SendKeepsGood(x, f, s, BindCard(u, t, false));
    SendTakesNothing(f, s, BindCard(u, t, false));
    NothingTaken(x, f, swept, s, Send(f, s, BindCard(u, t, false)).0);
  }

  /** The forced bind itself: when it fails without a lost answer, nothing happened. */
  lemma ForcedBindLog(x: Run, f: Faults, swept: set<ContactId>, s: Session, u: UserId, t: Token)
    requires Tidy(x, f, swept, s)
    ensures var step := Call(f, s, BindCard(u, t, true));
      && step.s.cache == s.cache && NoDoubleDelete(step.s.log) && DeletesAreSwept(s.cache.userIds, swept, step.s.log)
      && (NeverLost(f) ==> DeletesAreHeld(step.s.log))
      && (step.out.Raised? && NeverLost(f) ==> step.s.ctl == s.ctl)
      && (forall v, a :: Holds(s.ctl, v, a) && a != t ==> Holds(step.s.ctl, v, a))
  {
  }

  /** Forgetting the card at its former holder keeps the lists of cards truly held. */
  lemma ForgetKeepsLists(x: Run, swept: set<ContactId>, s: Session, c: State, u: UserId, t: Token, h: Holder)
    requires RunOk(x) && Inv(x, s.ctl, s.cache)
    requires HoldersNamed(x, s.cache.holders) && ListsAreHeld(swept, s.ctl, s.cache)
    requires forall k :: k in s.cache.cards ==> k in x.cache0.userIds
    requires Entitled(x, s.cache.userIds, u, t) && t in s.cache.holders && s.cache.holders[t] == h
    requires Holds(c, u, t) && forall v, a :: Holds(s.ctl, v, a) && a != t ==> Holds(c, v, a)
    ensures ListsAreHeld(swept, c, ForgetHolderCard(s.cache.(holders := s.cache.holders - {t}), h, t))
  {
    var cache' := ForgetHolderCard(s.cache.(holders := s.cache.holders - {t}), h, t);
    if h.employee.Some? && h.employee.value in s.cache.cards {
      WithoutOne(s.cache.cards[h.employee.value], t);
    }
    forall k, a | k in cache'.cards && k !in swept && a in cache'.cards[k]
      ensures k in s.cache.userIds && Holds(c, s.cache.userIds[k], a)
    {
      if a == t && s.cache.userIds[k] != u {
        LoserIsForgotten(x, s, u, t, k);
      }
    }
  }

  lemma ReclaimKeepsTidy(x: Run, f: Faults, swept: set<ContactId>, s: Session, u: UserId, t: Token)
    requires RunOk(x) && Tidy(x, f, swept, s) && Entitled(x, s.cache.userIds, u, t)
    requires t in s.cache.holders && IsDisabled(s.cache.holders[t].status)
    ensures Tidy(x, f, swept, Reclaim(f, s, u, t, s.cache.holders[t]).s)
  {
    var h := s.cache.holders[t];
    ReclaimKeepsGood(x, f, s, u, t);
    ForcedBindLog(x, f, swept, s, u, t);
    var step := Call(f, s, BindCard(u, t, true));
    if h.employee.Some? && h.employee.value in s.cache.cards {
      WithoutOne(s.cache.cards[h.employee.value], t);
    }
    if step.out.Fine? && NeverLost(f) {
      ForgetKeepsLists(x, swept, s, step.s.ctl, u, t, h);
    }
  }

  /** The holder entry of a card taken over names the contact that loses it. */
  lemma LoserIsForgotten(x: Run, s: Session, u: UserId, t: Token, k: ContactId)
    requires RunOk(x) && Inv(x, s.ctl, s.cache) && HoldersNamed(x, s.cache.holders)
    requires Entitled(x, s.cache.userIds, u, t) && t in s.cache.holders
    requires k in x.cache0.userIds && k in s.cache.userIds
    requires s.cache.userIds[k] != u && Holds(s.ctl, s.cache.userIds[k], t)
    ensures s.cache.holders[t].employee == Some(k)
  {
    var v := s.cache.userIds[k];
    if Entitled(x, s.cache.userIds, v, t) {
      EntitledIsUnique(x, s.cache.userIds, u, v, t);
    }
    assert Holds(x.c0, v, t);
  }

  lemma BindKeepsTidy(x: Run, f: Faults, swept: set<ContactId>, s: Session, u: UserId, t: Token)
    requires RunOk(x) && Tidy(x, f, swept, s) && Entitled(x, s.cache.userIds, u, t)
    ensures Tidy(x, f, swept, Bind(f, s, u, t).s)
  {
    PlainBindKeepsTidy(x, f, swept, s, u, t);
    var s1 := Send(f, s, BindCard(u, t, false)).0;
    if t in s1.cache.holders && IsDisabled(s1.cache.holders[t].status) {
      ReclaimKeepsTidy(x, f, swept, s1, u, t);
    }
  }

  lemma AttachKeepsTidy(x: Run, f: Faults, swept: set<ContactId>, s: Session, r: ResolvedMember, u: UserId)
    requires RunOk(x) && Tidy(x, f, swept, s) && r in x.writers
    requires r.contact in s.cache.userIds && s.cache.userIds[r.contact] == u
    ensures Tidy(x, f, swept, AttachCard(f, s, u, r.card).s)
  {
    if r.card.Some? && KnownToken(s.cache, r.card.value).Some? {
      var t := KnownToken(s.cache, r.card.value).value;
      assert Wants(x, r.contact, t);
      BindKeepsTidy(x, f, swept, s, u, t);
    }
  }

  // ---- tasks ----

  /** Marking holder entries as deactivated touches nothing else. */
  lemma MarkKeepsTidy(x: Run, f: Faults, swept: set<ContactId>, s: Session, k: ContactId, u: UserId)
    requires Tidy(x, f, swept, s)
    ensures var marked := s.(cache := MarkDeactivated(s.cache, k, u)); Good(x, marked) ==> Tidy(x, f, swept, marked)
  {
  }

  lemma DeactivateKeepsTidy(x: Run, f: Faults, swept: set<ContactId>, s: Session, k: ContactId, u: UserId)
    requires Tidy(x, f, swept, s) && k !in swept && k in s.cache.userIds && s.cache.userIds[k] == u
    ensures Tidy(x, f, swept + {k}, DeactivateUser(f, s, k, u).s)
  {
    DeactivateKeepsGood(x, f, s, k, u);
    var tokens := CachedCards(s.cache, k);
    SweepStarts(x, f, swept, k, s);
    SweepKeepsTidy(x, f, swept + {k}, k, s, tokens, None);
    SweepKeepsGood(x, f, s, u, tokens, None);
    StatusesDiffer();
    SendKeepsTidy(x, f, swept + {k}, Sweep(f, s, u, tokens, None).s, SetStatus(u, DEACTIVATED));
    MarkKeepsTidy(x, f, swept + {k}, Call(f, Sweep(f, s, u, tokens, None).s, SetStatus(u, DEACTIVATED)).s, k, u);
  }

  /** The card part of a credential entry. */
  lemma SwapKeepsTidy(x: Run, f: Faults, swept: set<ContactId>, s: Session, r: ResolvedMember, u: UserId)
    requires RunOk(x) && Tidy(x, f, swept, s) && r in x.writers
    requires var k := r.contact; k !in swept && k in s.cache.userIds && s.cache.userIds[k] == u
    ensures var step := Sweep(f, s, u, CachedCards(s.cache, r.contact), None);
      && Tidy(x, f, swept + {r.contact}, step.s)
      && (step.out.Fine? ==> Tidy(x, f, swept + {r.contact}, AttachCard(f, step.s, u, r.card).s))
  {
    var k, tokens := r.contact, CachedCards(s.cache, r.contact);
    SweepStarts(x, f, swept, k, s);
    SweepKeepsTidy(x, f, swept + {k}, k, s, tokens, None);
    SweepKeepsGood(x, f, s, u, tokens, None);
    var after := Sweep(f, s, u, tokens, None);
    if after.out.Fine? {
      AttachKeepsTidy(x, f, swept + {k}, after.s, r, u);
    }
  }

  lemma UpdateCredentialKeepsTidy(x: Run, f: Faults, swept: set<ContactId>, s: Session, p: Pair, u: UserId)
    requires RunOk(x) && Tidy(x, f, swept, s) && p.member in x.writers && p.member.name != ""
    requires var k := p.member.contact; k !in swept && k in s.cache.userIds && s.cache.userIds[k] == u
    ensures Tidy(x, f, swept + {p.member.contact}, UpdateCredential(f, s, p, u).s)
  {
    var k := p.member.contact;
    var fields := CredentialFields(p.member, p.user);
    WriteUserKeepsTidy(x, f, swept, s, Some(u), fields);
    WriteUserKeepsGood(x, f, s, Some(u), fields);
    var written := WriteRecord(f, s, u, fields);
    SweepStarts(x, f, swept, k, written.s);
    if written.out.Fine? && p.member.card != p.user.card {
      SwapKeepsTidy(x, f, swept, written.s, p.member, u);
    }
  }

  lemma SwitchOnKeepsTidy(x: Run, f: Faults, swept: set<ContactId>, s: Session, r: ResolvedMember, u: UserId)
    requires RunOk(x) && Tidy(x, f, swept, s) && r in x.writers
    requires r.contact in s.cache.userIds && s.cache.userIds[r.contact] == u
    requires forall t: Token :: Holds(s.ctl, u, t) ==> TokenOf(x, r) == Some(t)
    ensures Tidy(x, f, swept, SwitchOn(f, s, r, u).s)
  {
    AttachKeepsGood(x, f, s, r, u);
    AttachKeepsTidy(x, f, swept, s, r, u);
    var attached := AttachCard(f, s, u, r.card);
    if attached.out.Fine? {
      AssignKeepsGood(x, f, attached.s, u, r.policy);
      AssignKeepsTidy(x, f, swept, attached.s, u, r.policy);
      var granted := AssignPolicy(f, attached.s, u, r.policy);
      if granted.out.Fine? {
        assert Ready(x, granted.s.ctl, u, r);
        SendKeepsTidy(x, f, swept, granted.s, SetStatus(u, ACTIVE));
      }
    }
  }

  lemma ReactivateKeepsTidy(x: Run, f: Faults, swept: set<ContactId>, s: Session, r: ResolvedMember, u: UserId)
    requires RunOk(x) && Tidy(x, f, swept, s) && r in x.writers && r.name != ""
    requires r.contact !in swept && r.contact in s.cache.userIds && s.cache.userIds[r.contact] == u
    ensures Tidy(x, f, swept + {r.contact}, Reactivate(f, s, r, u).s)
  {
    var k := r.contact;
    var fields := Fields(Some(Codec.SplitName(r.name)), Some(k), Some(EmailText(r.email)));
    WriteUserKeepsTidy(x, f, swept, s, Some(u), fields);
    WriteUserKeepsGood(x, f, s, Some(u), fields);
    var written := WriteRecord(f, s, u, fields);
    var keep := if r.card.None? then None else KnownToken(written.s.cache, r.card.value);
    SweepStarts(x, f, swept, k, written.s);
    if written.out.Fine? {
      var tokens := CachedCards(written.s.cache, k);
      SweepKeepsTidy(x, f, swept + {k}, k, written.s, tokens, keep);
      SweepKeepsGood(x, f, written.s, u, tokens, keep);
      var after := Sweep(f, written.s, u, tokens, keep);
      if after.out.Fine? {
        SweptHoldsOnlyWanted(x, after.s.ctl, after.s.cache, r, u);
        SwitchOnKeepsTidy(x, f, swept + {k}, after.s, r, u);
      }
    }
  }

  lemma CreateKeepsTidy(x: Run, f: Faults, swept: set<ContactId>, s: Session, r: ResolvedMember)
    requires RunOk(x) && Tidy(x, f, swept, s) && r in x.writers && r.name != ""
    requires r.contact !in s.cache.userIds
    ensures Tidy(x, f, swept + {r.contact}, Create(f, s, r).s)
  {
    var k := r.contact;
    var fields := Fields(Some(Codec.SplitName(r.name)), Some(k), r.email);
    WriteUserKeepsTidy(x, f, swept, s, None, fields);
    WriteUserKeepsGood(x, f, s, None, fields);
    var (s1, reply) := WriteUser(f, s, None, fields);
    SweptMore(x, f, swept, k, s1);
    if reply.Created? {
      var u := reply.user;
      RegisterKeepsGood(x, s1, k, u);
      var s2 := s1.(cache := s1.cache.(userIds := s1.cache.userIds[k := u]));
      RegisterKeepsTidy(x, f, swept + {k}, s1, k, u);
      AttachKeepsTidy(x, f, swept + {k}, s2, r, u);
      AttachKeepsGood(x, f, s2, r, u);
      var attached := AttachCard(f, s2, u, r.card);
      if attached.out.Fine? {
        AssignKeepsTidy(x, f, swept + {k}, attached.s, u, r.policy);
      }
    }
  }

  /** Calling more contacts swept is harmless. */
  lemma SweptMore(x: Run, f: Faults, swept: set<ContactId>, k: ContactId, s: Session)
    requires Tidy(x, f, swept, s)
    ensures Tidy(x, f, swept + {k}, s)
  {
  }

  lemma RegisterKeepsTidy(x: Run, f: Faults, swept: set<ContactId>, s: Session, k: ContactId, u: UserId)
    requires RunOk(x) && Tidy(x, f, swept, s) && FreshUser(x, s, u) && k !in s.cache.userIds
    ensures Tidy(x, f, swept, s.(cache := s.cache.(userIds := s.cache.userIds[k := u])))
  {
    RegisterKeepsGood(x, s, k, u);
    var ids' := s.cache.userIds[k := u];
    forall i | 0 <= i < |s.log| && s.log[i].request.DeleteCard?
      ensures exists j :: j in swept && j in ids' && ids'[j] == s.log[i].request.user
    {
      var j :| j in swept && j in s.cache.userIds && s.cache.userIds[j] == s.log[i].request.user;
      assert ids'[j] == s.cache.userIds[j];
    }
  }

  // ---- runs ----

  /** The contacts whose cards the entries may sweep. */
  function SweptBy(ts: seq<Task>): set<ContactId> {
    set i | 0 <= i < |ts| && !ts[i].Policy? :: TaskContact(ts[i])
  }

  /** Deactivations, credential changes and additions concern different contacts. */
  ghost predicate SweepsDisjoint(ts: seq<Task>) {
    forall i, j :: 0 <= i < j < |ts| && !ts[i].Policy? && !ts[j].Policy? ==> TaskContact(ts[i]) != TaskContact(ts[j])
  }

  lemma RunTaskKeepsTidy(x: Run, f: Faults, swept: set<ContactId>, s: Session, t: Task)
    requires RunOk(x) && Tidy(x, f, swept, s) && Named(t) && TaskInRun(x, t)
    requires t.Policy? || TaskContact(t) !in swept
    ensures Tidy(x, f, if t.Policy? then swept else swept + {TaskContact(t)}, RunTask(f, s, t))
  {
    var k := TaskContact(t);
    if t.Add? {
      if k in s.cache.userIds {
        ReactivateKeepsTidy(x, f, swept, s, t.member, s.cache.userIds[k]);
      } else {
        CreateKeepsTidy(x, f, swept, s, t.member);
      }
    } else if k in s.cache.userIds {
      var u := s.cache.userIds[k];
      match t
      case Deactivate(_) => DeactivateKeepsTidy(x, f, swept, s, k, u);
      case Credential(p) => UpdateCredentialKeepsTidy(x, f, swept, s, p, u);
      case Policy(p) => AssignKeepsTidy(x, f, swept, s, u, p.member.policy);
    } else {
      SweptMore(x, f, swept, k, s);
    }
  }

  lemma {:induction false} RunTasksKeepsTidy(x: Run, f: Faults, s: Session, ts: seq<Task>)
    requires RunOk(x) && Tidy(x, f, {}, s) && AllNamed(ts) && SweepsDisjoint(ts)
    requires forall i :: 0 <= i < |ts| ==> TaskInRun(x, ts[i])
    ensures Tidy(x, f, SweptBy(ts), RunTasks(f, s, ts))
  {
    if ts == [] {
      assert SweptBy(ts) == {};
    } else {
      var n := |ts| - 1;
      RunTasksKeepsTidy(x, f, s, ts[..n]);
      assert SweptBy(ts) == if ts[n].Policy? then SweptBy(ts[..n]) else SweptBy(ts[..n]) + {TaskContact(ts[n])} by {
        assert forall i :: 0 <= i < n ==> ts[..n][i] == ts[i];
      }
      forall i | 0 <= i < n && !ts[n].Policy? && !ts[..n][i].Policy?
        ensures TaskContact(ts[..n][i]) != TaskContact(ts[n])
      {
        assert ts[..n][i] == ts[i];
      }
      RunTaskKeepsTidy(x, f, SweptBy(ts[..n]), RunTasks(f, s, ts[..n]), ts[n]);
    }
  }

  /** The buckets of a computed difference are disjoint. */
  lemma DiffIsDisjoint(members: seq<ResolvedMember>, users: seq<UnifiUser>, d: Diff)
    requires IsDiff(members, users, d)
    ensures SweepsDisjoint(Tasks(d))
  {
    Reported(members, users, d);
    var a, b, c := |d.toDeactivate|, |d.toUpdateCredential|, |d.toUpdatePolicy|;
    var ts := Tasks(d);
    var wanted, present := IndexWanted(members), IndexPresent(users);
    forall i | 0 <= i < |ts| && !ts[i].Policy?
      ensures ts[i].Deactivate? ==>
                i < a && ts[i].user == d.toDeactivate[i] && Deactivates(TaskContact(ts[i]), wanted, present)
      ensures ts[i].Credential? ==> a <= i < a + b && ts[i].pair == d.toUpdateCredential[i - a] &&
                                    UpdatesCredential(TaskContact(ts[i]), wanted, present)
      ensures ts[i].Add? ==> a + b + c <= i && ts[i].member == d.toAdd[i - a - b - c] &&
                             Reconciler.Adds(TaskContact(ts[i]), wanted, present)
    {
    }
    forall i, j | 0 <= i < j < |ts| && !ts[i].Policy? && !ts[j].Policy?
      ensures TaskContact(ts[i]) != TaskContact(ts[j])
    {
      if ts[i].Deactivate? && ts[j].Deactivate? {
        assert d.toDeactivate[i] != d.toDeactivate[j];
      } else if ts[i].Credential? && ts[j].Credential? {
        assert d.toUpdateCredential[i - a] != d.toUpdateCredential[j - a];
      } else if ts[i].Add? && ts[j].Add? {
        assert d.toAdd[i - a - b - c] != d.toAdd[j - a - b - c];
      }
    }
  }

  lemma TidyStarts(f: Faults, s0: Session, s: Session, d: Diff)
    requires WellFormed(s0.ctl) && Agrees(s0.cache, s0.ctl) && ReadsOnly(s0.log)
    requires OnlyIndexed(s0, s) && WellFormed(s.ctl) && DistinctCards(d) && OneEntryEach(d)
    requires s.cache.tokenMap.Some? ==> CardsLoaded(s.cache, s.ctl)
    ensures Tidy(RunOf(s, d), f, {}, s)
  {
    RunStartsGood(s0, s, d);
    assert forall i :: 0 <= i < |s.log| ==> !s.log[i].request.DeleteCard?;
  }

  /**
  The card-cache protocol: for a computed difference and any faults, no card is deleted twice; and
  while no answer is lost, every delete names a card that its user holds at that moment.
  */
  /** Nothing was asked to be deleted before the run. */
  lemma NothingDeletedYet(s0: Session, s: Session)
    requires ReadsOnly(s0.log) && OnlyIndexed(s0, s)
    ensures NoDoubleDelete(s.log) && DeletesAreHeld(s.log)
  {
    assert forall i :: 0 <= i < |s.log| ==> !s.log[i].request.DeleteCard?;
  }

  lemma ImportedIsSwept(f: Faults, s0: Session, s: Session, members: seq<ResolvedMember>, users: seq<UnifiUser>,
                        d: Diff)
    requires WellFormed(s0.ctl) && Agrees(s0.cache, s0.ctl) && ReadsOnly(s0.log) && IsDiff(members, users, d)
    requires OnlyIndexed(s0, s) && WellFormed(s.ctl) && DistinctCards(d) && NamesOk(d)
    requires s.cache.tokenMap.Some? ==> CardsLoaded(s.cache, s.ctl)
    ensures AllNamed(Tasks(d)) && NoDoubleDelete(RunTasks(f, s, Tasks(d)).log)
    ensures NeverLost(f) ==> DeletesAreHeld(RunTasks(f, s, Tasks(d)).log)
  {
    DiffWritesOnce(members, users, d);
    TidyStarts(f, s0, s, d);
    RunStartsGood(s0, s, d);
    DiffIsDisjoint(members, users, d);
    SweptOnceFrom(f, s, d);
  }

  lemma CardsAreSweptOnce(f: Faults, cfg: Config, s: Session, members: seq<ResolvedMember>, users: seq<UnifiUser>,
                          d: Diff)
    requires WellFormed(s.ctl) && Agrees(s.cache, s.ctl) && ReadsOnly(s.log)
    requires IsDiff(members, users, d)
    requires CardsInRange(d) && DistinctCards(d) && NamesOk(d) && cfg.facility < Codec.FACILITY_CODES
    ensures NoDoubleDelete(Apply(f, cfg, s, d).s.log)
    ensures NeverLost(f) ==> DeletesAreHeld(Apply(f, cfg, s, d).s.log)
  {
    var s0 := s.(failures := []);
    NamedApply(f, cfg, s, d);
    PreImportResult(f, cfg, s0, d);
    var pre := PreImport(f, cfg, s0, d);
    NothingDeletedYet(s0, pre.s);
    if pre.out.Fine? {
      ImportedIsSwept(f, s0, pre.s, members, users, d);
    }
  }

  lemma SweptOnceFrom(f: Faults, s: Session, d: Diff)
    requires RunOk(RunOf(s, d)) && Tidy(RunOf(s, d), f, {}, s) && NamesOk(d) && SweepsDisjoint(Tasks(d))
    ensures AllNamed(Tasks(d))
    ensures NoDoubleDelete(RunTasks(f, s, Tasks(d)).log)
    ensures NeverLost(f) ==> DeletesAreHeld(RunTasks(f, s, Tasks(d)).log)
  {
    TasksAreNamed(d);
    TasksInRun(RunOf(s, d), d);
    RunTasksKeepsTidy(RunOf(s, d), f, s, Tasks(d));
  }
}
