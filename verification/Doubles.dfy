/**
One user per contact: kept by every apply in which no create was carried out twice, and lost in every other.
*/
module Doubles {
  import opened Models
  import opened Controller
  import opened Protocol
  import opened CardIndex
  import opened Effects
  import opened ForceBind
  import opened Frame
  import opened Cycle
  import opened Isolation
  import opened Soundness

  /** How many accounts of contact `k` the i-th request opened. */
  ghost function OpenedAt(f: Faults, log: seq<Event>, i: nat, k: ContactId): nat
    requires i < |log|
  {
    var e := log[i];
    if e.request.CreateUser? && e.request.fields.employee == Some(k) then Opens(f(i), e.before, e.request.fields) else 0
  }

  /** Creates of contact `k` were carried out twice: one request on several sendings, or two requests. */
  ghost predicate OpenedTwice(f: Faults, log: seq<Event>, k: ContactId) {
    exists i, j :: 0 <= i <= j < |log| && OpenedAt(f, log, i, k) > 0 && OpenedAt(f, log, j, k) > 0 &&
                   (i == j ==> OpenedAt(f, log, i, k) > 1)
  }

  ghost predicate NoCreateFor(log: seq<Event>, from: nat, k: ContactId) {
    forall i :: from <= i < |log| && log[i].request.CreateUser? ==> log[i].request.fields.employee != Some(k)
  }

  /** Other requests open nothing. */
  lemma OthersOpenNothing(f: Faults, log: seq<Event>, log': seq<Event>, k: ContactId)
    requires log <= log' && NoCreateFor(log', |log|, k)
    ensures OpenedTwice(f, log', k) <==> OpenedTwice(f, log, k)
  {
    forall i | 0 <= i < |log| ensures OpenedAt(f, log', i, k) == OpenedAt(f, log, i, k) {
    }
    forall i | |log| <= i < |log'| ensures OpenedAt(f, log', i, k) == 0 {
    }
    if OpenedTwice(f, log, k) {
      var i, j :| 0 <= i <= j < |log| && OpenedAt(f, log, i, k) > 0 && OpenedAt(f, log, j, k) > 0 &&
                  (i == j ==> OpenedAt(f, log, i, k) > 1);
      assert OpenedAt(f, log', i, k) > 0 && OpenedAt(f, log', j, k) > 0;
    }
  }

  // ---- one create ----

  lemma AppendedCreate(f: Faults, s: Session, k: ContactId, fields: Fields)
    requires fields.employee == Some(k)
    ensures var s1 := Send(f, s, CreateUser(fields)).0;
      && s.log <= s1.log && |s1.log| == |s.log| + 1
      && s1.ctl.nextUser == s.ctl.nextUser + OpenedAt(f, s1.log, |s.log|, k)
  {
    CreateSent(f, s, k, fields);
  }

  /** The first create of a contact opens two accounts or more exactly when it was carried out twice. */
  lemma CreateDoubles(f: Faults, s: Session, k: ContactId, fields: Fields)
    requires fields.employee == Some(k) && NoCreateFor(s.log, 0, k)
    ensures var s1 := WriteUser(f, s, None, fields).0;
      OpenedTwice(f, s1.log, k) <==> s1.ctl.nextUser > s.ctl.nextUser + 1
  {
    AppendedCreate(f, s, k, fields);
    var (s1, reply) := Send(f, s, CreateUser(fields));
    var rest := fields.(email := None);
    AppendedCreate(f, s1, k, rest);
    var s2 := Send(f, s1, CreateUser(rest)).0;
    var n := |s.log|;
    forall i | 0 <= i < n ensures OpenedAt(f, s1.log, i, k) == 0 && OpenedAt(f, s2.log, i, k) == 0 {
    }
    assert OpenedAt(f, s2.log, n, k) == OpenedAt(f, s1.log, n, k);
    TwoAtMost(f, s1.log, k, n);
    TwoAtMost(f, s2.log, k, n);
  }

  /** The accounts opened from request `n` on, when there are at most two such requests. */
  lemma TwoAtMost(f: Faults, log: seq<Event>, k: ContactId, n: nat)
    requires n < |log| <= n + 2 && forall i :: 0 <= i < n ==> OpenedAt(f, log, i, k) == 0
    ensures OpenedTwice(f, log, k) <==>
            OpenedAt(f, log, n, k) + (if |log| == n + 2 then OpenedAt(f, log, n + 1, k) else 0) > 1
  {
  }

  /** Creates that are not sent again open one account at most. */
  ghost predicate CreatesSentOnce(f: Faults, log: seq<Event>) {
    forall i :: 0 <= i < |log| && log[i].request.CreateUser? ==> !f(i).Resend?
  }

  lemma SentOnceOpensOne(f: Faults, s: Session, k: ContactId, fields: Fields)
    requires fields.employee == Some(k) && CreatesSentOnce(f, WriteUser(f, s, None, fields).0.log)
    ensures WriteUser(f, s, None, fields).0.ctl.nextUser <= s.ctl.nextUser + 1
  {
    CreateSent(f, s, k, fields);
    var (s1, reply) := Send(f, s, CreateUser(fields));
    var rest := fields.(email := None);
    CreateSent(f, s1, k, rest);
    var s' := WriteUser(f, s, None, fields).0;
    var s2 := Send(f, s1, CreateUser(rest)).0;
    assert s'.log[|s.log|].request.CreateUser?;
    assert s' == s2 ==> s'.log[|s.log| + 1].request.CreateUser?;
  }

  predicate Blank(email: Option<string>) {
    email.None? || email.value == ""
  }

  /** Sent again after it took effect, a create without email opens another account; one with an email is refused. */
  lemma ResentAnswer(f: Faults, s: Session, fields: Fields, more: nat)
    requires f(|s.log|) == Resend(more, true)
    ensures var (s1, reply) := Send(f, s, CreateUser(fields));
      && (Blank(fields.email) ==> reply.Created?)
      && (!Blank(fields.email) ==> reply == Failed(Some(CODE_EMAIL_EXIST)))
  {
    ResentCreate(s.ctl, fields, more + 1);
  }

  lemma PlainCreate(f: Faults, s: Session, fields: Fields)
    requires f(|s.log|) == Answer && Blank(fields.email)
    ensures var (s1, reply) := Send(f, s, CreateUser(fields)); reply.Created? && s1.ctl.nextUser == s.ctl.nextUser + 1
  {
  }

  /** Two new accounts of one contact. */
  lemma TwoOpened(c: State, c': State, k: ContactId)
    requires Opened(c, c', k) && c'.nextUser >= c.nextUser + 2
    ensures Doubled(c', k)
  {
    assert c.nextUser in c'.users && c.nextUser + 1 in c'.users;
  }

  lemma ResentOpensTwo(f: Faults, s: Session, k: ContactId, fields: Fields, more: nat)
    requires fields.employee == Some(k) && f(|s.log|) == Resend(more, true)
    requires !Blank(fields.email) ==> !EmailTaken(s.ctl, None, fields.email.value) && f(|s.log| + 1) == Answer
    ensures var (s1, reply) := WriteUser(f, s, None, fields); reply.Created? && s1.ctl.nextUser >= s.ctl.nextUser + 2
  {
    ConflictCode();
    ResentAnswer(f, s, fields, more);
    CreateSent(f, s, k, fields);
    var s1 := Send(f, s, CreateUser(fields)).0;
    if !Blank(fields.email) {
      PlainCreate(f, s1, fields.(email := None));
    }
  }

  /**
  The failing input. A create that took effect and is sent again opens a second account of its contact: at
  once when it carries no email; and when its email is free, because the second sending is refused for the
  email of the first, and the client then creates the account without it. The client takes both for success.
  */
  lemma ResentCreateDoubles(f: Faults, s: Session, k: ContactId, fields: Fields, more: nat)
    requires fields.employee == Some(k) && f(|s.log|) == Resend(more, true)
    requires !Blank(fields.email) ==> !EmailTaken(s.ctl, None, fields.email.value) && f(|s.log| + 1) == Answer
    ensures var (s1, reply) := WriteUser(f, s, None, fields); reply.Created? && Doubled(s1.ctl, k)
  {
    ResentOpensTwo(f, s, k, fields, more);
    CreateWriteEffect(f, s, map[], k, fields);
    TwoOpened(s.ctl, WriteUser(f, s, None, fields).0.ctl, k);
  }

  // ---- one entry ----

  /** Users of contacts not tried are known, creates so far are for contacts tried, and doubles come from creates. */
  ghost predicate Counted(f: Faults, s: Session, tried: set<ContactId>) {
    && Numbered(s, tried)
    && (forall k :: k !in tried ==> NoCreateFor(s.log, 0, k))
    && (forall k :: k > 0 ==> (Doubled(s.ctl, k) <==> OpenedTwice(f, s.log, k)))
    && (CreatesSentOnce(f, s.log) ==> NobodyTwice(f, s.log))
  }

  /** No member's create was carried out twice. */
  ghost predicate NobodyTwice(f: Faults, log: seq<Event>) {
    forall k :: k > 0 ==> !OpenedTwice(f, log, k)
  }

  lemma SentOnceBefore(f: Faults, log: seq<Event>, log': seq<Event>)
    requires log <= log' && CreatesSentOnce(f, log')
    ensures CreatesSentOnce(f, log)
  {
    assert forall i :: 0 <= i < |log| ==> log[i] == log'[i];
  }

  lemma UsersUnchanged(c: State, c': State, k: ContactId)
    requires c'.users.Keys == c.users.Keys && forall u :: u in c.users ==> c'.users[u].employee == c.users[u].employee
    ensures Doubled(c', k) <==> Doubled(c, k)
  {
  }

  lemma KnownTaskCounted(x: Run, f: Faults, s: Session, t: Task, tried: set<ContactId>)
    requires RunOk(x) && Good(x, s) && Named(t) && TaskInRun(x, t) && Counted(f, s, tried)
    requires TaskContact(t) in s.cache.userIds
    ensures Counted(f, RunTask(f, s, t), tried)
  {
    var s' := RunTask(f, s, t);
    KnownTaskKeepsNumbers(x, f, s, t, tried);
    TaskTouches(f, s, s.cache.userIds, t);
    KnownEmployee(f, s, t);
    SameCount(f, s, s', tried);
  }

  /** Steps that create nobody and renumber nobody. */
  lemma SameCount(f: Faults, s: Session, s': Session, tried: set<ContactId>)
    requires Counted(f, s, tried) && Numbered(s', tried) && s.log <= s'.log
    requires forall i :: |s.log| <= i < |s'.log| ==> !s'.log[i].request.CreateUser?
    requires s'.ctl.users.Keys == s.ctl.users.Keys
    requires forall u :: u in s.ctl.users ==> s'.ctl.users[u].employee == s.ctl.users[u].employee
    ensures Counted(f, s', tried)
  {
    forall k | k > 0
      ensures Doubled(s'.ctl, k) <==> OpenedTwice(f, s'.log, k)
      ensures OpenedTwice(f, s'.log, k) <==> OpenedTwice(f, s.log, k)
    {
      UsersUnchanged(s.ctl, s'.ctl, k);
      OthersOpenNothing(f, s.log, s'.log, k);
    }
    if CreatesSentOnce(f, s'.log) {
      SentOnceBefore(f, s.log, s'.log);
    }
    forall k | k !in tried ensures NoCreateFor(s'.log, 0, k) {
      assert NoCreateFor(s.log, 0, k);
    }
  }

  /** New accounts double their contact, which had none, exactly when there are two or more. */
  lemma OpenedDoubles(c: State, c': State, k: ContactId)
    requires Opened(c, c', k) && WellFormed(c) && forall u :: u in c.users ==> c.users[u].employee != Some(k)
    ensures Doubled(c', k) <==> c'.nextUser > c.nextUser + 1
  {
    if c'.nextUser > c.nextUser + 1 {
      var u := c.nextUser;
      assert u in c'.users && u + 1 in c'.users;
    }
  }

  lemma OthersKeepCount(c: State, c': State, k: ContactId, j: ContactId)
    requires Opened(c, c', k) && WellFormed(c) && j != k
    ensures Doubled(c', j) <==> Doubled(c, j)
  {
    assert forall u :: u in c'.users && c'.users[u].employee == Some(j) <==>
                       u in c.users && c.users[u].employee == Some(j);
  }

  lemma WriteCounted(x: Run, f: Faults, s: Session, r: ResolvedMember, tried: set<ContactId>)
    requires Good(x, s) && r.name != "" && Counted(f, s, tried)
    requires r.contact !in s.cache.userIds && r.contact !in tried
    ensures Counted(f, WriteUser(f, s, None, CreationFields(r)).0, tried + {r.contact})
  {
    var k, s1 := r.contact, WriteUser(f, s, None, CreationFields(r)).0;
    CreateWriteEffect(f, s, x.cache0.userIds, k, CreationFields(r));
    NewNumber(s, s1, k, tried);
    CreateDoubles(f, s, k, CreationFields(r));
    if CreatesSentOnce(f, s1.log) {
      SentOnceOpensOne(f, s, k, CreationFields(r));
    }
    WrittenCounted(f, s, s1, k, tried);
  }

  lemma WrittenCounted(f: Faults, s: Session, s1: Session, k: ContactId, tried: set<ContactId>)
    requires Counted(f, s, tried) && WellFormed(s.ctl) && k !in s.cache.userIds && k !in tried && s.log <= s1.log
    requires Opened(s.ctl, s1.ctl, k) && Numbered(s1, tried + {k})
    requires forall i :: |s.log| <= i < |s1.log| ==>
               s1.log[i].request.CreateUser? && s1.log[i].request.fields.employee == Some(k)
    requires OpenedTwice(f, s1.log, k) <==> s1.ctl.nextUser > s.ctl.nextUser + 1
    requires CreatesSentOnce(f, s1.log) ==> s1.ctl.nextUser <= s.ctl.nextUser + 1
    ensures Counted(f, s1, tried + {k})
  {
    if k > 0 {
      OpenedDoubles(s.ctl, s1.ctl, k);
    }
    forall j | j > 0 && j != k
      ensures Doubled(s1.ctl, j) <==> OpenedTwice(f, s1.log, j)
      ensures OpenedTwice(f, s1.log, j) <==> OpenedTwice(f, s.log, j)
    {
      OthersKeepCount(s.ctl, s1.ctl, k, j);
      OthersOpenNothing(f, s.log, s1.log, j);
    }
    forall j | j !in tried + {k} ensures NoCreateFor(s1.log, 0, j) {
      assert NoCreateFor(s.log, 0, j);
    }
    if CreatesSentOnce(f, s1.log) {
      SentOnceBefore(f, s.log, s1.log);
    }
  }

  lemma EquipCounted(f: Faults, s: Session, r: ResolvedMember, tried: set<ContactId>)
    requires Counted(f, s, tried) && r.contact in s.cache.userIds
    ensures Counted(f, Equip(f, s, r, s.cache.userIds[r.contact]).s, tried)
  {
    var u := s.cache.userIds[r.contact];
    var s' := Equip(f, s, r, u).s;
    EquipEffect(f, s, r, u);
    SameNumbers(s, s', tried);
    SameCount(f, s, s', tried);
  }

  lemma RegisteredCounted(f: Faults, s: Session, k: ContactId, u: UserId, tried: set<ContactId>)
    requires Counted(f, s, tried) && k in tried && u in s.ctl.users && s.ctl.users[u].employee == Some(k)
    ensures Counted(f, Registered(s, k, u), tried)
  {
    RegisterNumber(s, k, u, tried);
  }

  lemma CreatedCounted(x: Run, f: Faults, s: Session, r: ResolvedMember, tried: set<ContactId>)
    requires Good(x, s) && r.name != "" && Counted(f, s, tried) && r.contact !in s.cache.userIds && r.contact !in tried
    requires WriteUser(f, s, None, CreationFields(r)).1.Created?
    ensures var (s1, reply) := WriteUser(f, s, None, CreationFields(r));
      Counted(f, Registered(s1, r.contact, reply.user), tried + {r.contact})
  {
    WriteCounted(x, f, s, r, tried);
    CreateWriteEffect(f, s, x.cache0.userIds, r.contact, CreationFields(r));
    var (s1, reply) := WriteUser(f, s, None, CreationFields(r));
    RegisteredCounted(f, s1, r.contact, reply.user, tried + {r.contact});
  }

  lemma CreateCounted(x: Run, f: Faults, s: Session, r: ResolvedMember, tried: set<ContactId>)
    requires RunOk(x) && Good(x, s) && r in x.writers && r.name != "" && Counted(f, s, tried)
    requires r.contact !in s.cache.userIds && r.contact !in tried
    ensures Counted(f, RunTask(f, s, Add(r)), tried + {r.contact})
  {
    CreateUnfolds(f, s, r);
    WriteCounted(x, f, s, r, tried);
    var (s1, reply) := WriteUser(f, s, None, CreationFields(r));
    if reply.Created? {
      CreatedCounted(x, f, s, r, tried);
      EquipCounted(f, Registered(s1, r.contact, reply.user), r, tried + {r.contact});
    }
  }

  // ---- a whole run ----

  lemma TaskCounted(x: Run, f: Faults, s: Session, t: Task, tried: set<ContactId>)
    requires RunOk(x) && Good(x, s) && Named(t) && TaskInRun(x, t) && Counted(f, s, tried)
    requires t.Add? ==> TaskContact(t) !in tried
    ensures Counted(f, RunTask(f, s, t), if t.Add? then tried + {TaskContact(t)} else tried)
  {
    if TaskContact(t) in s.cache.userIds {
      KnownTaskCounted(x, f, s, t, tried);
      if t.Add? {
        MoreTried(RunTask(f, s, t), tried, TaskContact(t));
      }
    } else if t.Add? {
      CreateCounted(x, f, s, t.member, tried);
    }
  }

  lemma {:induction false} RunCounted(x: Run, f: Faults, s: Session, ts: seq<Task>, n: nat)
    requires Underway(x, s, ts) && n <= |ts| && OneEntryPerContact(ts) && Counted(f, s, {})
    ensures Counted(f, At(f, s, ts, n), AddedBy(ts[..n]))
  {
    if n == 0 {
      assert AddedBy(ts[..0]) == {};
    } else {
      var m := n - 1;
      RunCounted(x, f, s, ts, m);
      GoodAt(x, f, s, ts, m);
      AtNext(f, s, ts, m);
      AddedByOneMore(ts, m);
      TaskCounted(x, f, At(f, s, ts, m), ts[m], AddedBy(ts[..m]));
    }
  }

  /** Nothing is doubled when nobody has been created. */
  lemma StartIsCounted(f: Faults, s: Session)
    requires Numbered(s, {}) && UniqueContacts(s.ctl)
    requires forall i :: 0 <= i < |s.log| ==> !s.log[i].request.CreateUser?
    ensures Counted(f, s, {})
  {
    UniqueIsNotDoubled(s.ctl);
    forall k | k > 0 ensures !Doubled(s.ctl, k) && !OpenedTwice(f, s.log, k) {
    }
  }

  lemma CountedIsUnique(f: Faults, s: Session, tried: set<ContactId>)
    requires Counted(f, s, tried)
    ensures forall k :: k > 0 ==> (Doubled(s.ctl, k) <==> OpenedTwice(f, s.log, k))
    ensures UniqueContacts(s.ctl) <==> NobodyTwice(f, s.log)
    ensures CreatesSentOnce(f, s.log) ==> NobodyTwice(f, s.log)
  {
    UniqueIsNotDoubled(s.ctl);
  }

  lemma WholeRunCounted(x: Run, f: Faults, s: Session, ts: seq<Task>)
    requires Underway(x, s, ts) && OneEntryPerContact(ts) && Counted(f, s, {})
    ensures Counted(f, RunTasks(f, s, ts), AddedBy(ts))
  {
    RunCounted(x, f, s, ts, |ts|);
    assert ts[..|ts|] == ts;
  }

  lemma RunIsCounted(y: Round, p: Session, s': Session)
    requires Ran(y, p, s')
    ensures Counted(y.f, s', AddedBy(Tasks(y.d)))
  {
    StartIsNumbered(y, p, s');
    IndexingCreatesNobody(y.f, y.s.(failures := []), p);
    StartIsCounted(y.f, p);
    WholeRunCounted(RunOf(p, y.d), y.f, p, Tasks(y.d));
  }

  lemma RunKeepsUnique(y: Round, p: Session, s': Session)
    requires Ran(y, p, s')
    ensures forall k :: k > 0 ==> (Doubled(s'.ctl, k) <==> OpenedTwice(y.f, s'.log, k))
    ensures UniqueContacts(s'.ctl) <==> NobodyTwice(y.f, s'.log)
    ensures CreatesSentOnce(y.f, s'.log) ==> NobodyTwice(y.f, s'.log)
  {
    RunIsCounted(y, p, s');
    CountedIsUnique(y.f, s', AddedBy(Tasks(y.d)));
  }

  /** Reading users and loading or importing cards creates nobody. */
  lemma IndexingCreatesNobody(f: Faults, s: Session, p: Session)
    requires OnlyIndexed(s, p) && ReadsOnly(s.log)
    ensures (UniqueContacts(s.ctl) ==> UniqueContacts(p.ctl)) && NobodyTwice(f, p.log)
    ensures forall i :: 0 <= i < |p.log| ==> !p.log[i].request.CreateUser?
  {
    forall i | 0 <= i < |p.log| ensures !p.log[i].request.CreateUser? {
      assert i < |s.log| ==> p.log[i] == s.log[i];
    }
    forall k | k > 0 ensures !OpenedTwice(f, p.log, k) {
      forall i | 0 <= i < |p.log| ensures OpenedAt(f, p.log, i, k) == 0 {
        assert i < |s.log| ==> p.log[i] == s.log[i];
      }
    }
  }

  lemma ImportKeepsUnique(y: Round)
    requires Started(y)
    ensures UniqueContacts(RunStart(y).s.ctl) && NobodyTwice(y.f, RunStart(y).s.log)
  {
    StartedIsGood(y);
    IndexingCreatesNobody(y.f, y.s.(failures := []), RunStart(y).s);
  }

  /**
  One user per contact survives an apply exactly when no contact's create was carried out twice: by a
  request that was sent again after its answer was lost, or by two requests. Without creates that are
  sent again it always survives.
  */
  lemma UniqueExactlyWhenOpenedOnce(y: Round)
    requires Started(y)
    ensures UniqueContacts(Applied(y).s.ctl) <==> NobodyTwice(y.f, Applied(y).s.log)
    ensures CreatesSentOnce(y.f, Applied(y).s.log) ==> NobodyTwice(y.f, Applied(y).s.log)
  {
    if RunStart(y).out.Fine? {
      AppliedIsRun(y);
      RunKeepsUnique(y, RunStart(y).s, Applied(y).s);
    } else {
      ImportKeepsUnique(y);
    }
  }

  /** The next cycle finds a sound controller again exactly when nobody's create was carried out twice. */
  lemma ApplyKeepsSound(y: Round)
    requires Started(y)
    ensures Sound(Applied(y).s.ctl) <==> NobodyTwice(y.f, Applied(y).s.log)
  {
    ApplyKeepsOneCard(y);
    UniqueExactlyWhenOpenedOnce(y);
  }
}
