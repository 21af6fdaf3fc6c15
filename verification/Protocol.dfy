/**
The write protocol of the UniFi client as a function from session to session.
A session is the controller, everything sent to it so far, and the client's caches.
Every request may be answered, refused, carried out and then reported as failed, or carried out several times.
*/
module Protocol {
  import opened Models
  import opened Text
  import opened Codec
  import opened Controller
  import opened Reconciler
  import opened Safety

  const USERS_PAGE: nat := 100
  const USERS_PAGES: nat := 1000

  /**
  What becomes of one request. It is answered; or refused without effect; or carried out with its answer lost;
  or carried out with its answer lost, sent again another `more + 1` times and carried out each time.
  A request that ends without an answer is reported as failed, without an error code.
  */
  datatype Fault = Answer | Refuse(code: Option<string>) | Lose | Resend(more: nat, answered: bool)

  /** The fault of the n-th request of the session. */
  type Faults = nat -> Fault

  datatype Event = Event(request: Request, before: State, reply: Reply)

  /** Who held a card when the users were fetched. */
  datatype Holder = Holder(user: UserId, employee: Option<ContactId>, status: string)

  datatype Cache = Cache(
    userIds: map<ContactId, UserId>,
    cards: map<ContactId, seq<Token>>,
    tokenMap: Option<map<CardId, Token>>,
    cardOf: map<Token, CardId>,
    holders: map<Token, Holder>)

  datatype Session = Session(ctl: State, log: seq<Event>, cache: Cache, failures: seq<ContactId>)

  datatype Config = Config(facility: nat, managed: Option<set<string>>)

  /** How a step ends: normally, or with an exception that carries an error code. */
  datatype Outcome = Fine | Raised(code: Option<string>)
  datatype Step = Step(s: Session, out: Outcome)

  // ---- one request ----

  /** The same request once more. An upload of cards that are there already is answered as before. */
  function Again(c: State, r: Request, before: Reply): (State, Reply) {
    if r.ImportCards? then (c, before) else Exec(c, r)
  }

  /** A request carried out and then `n` times more: what the retry loop does when answers are lost. */
  function Resent(c: State, r: Request, n: nat): (State, Reply) {
    if n == 0 then Exec(c, r)
    else
      var before := Resent(c, r, n - 1);
      Again(before.0, r, before.1)
  }

  /** The last answer to a request that took effect before; a delete finds the card gone. */
  function LateReply(c: State, r: Request): Reply {
    if r.DeleteCard? then Failed(Some(CODE_NOT_FOUND)) else Exec(c, r).1
  }

  /** Only a create takes effect more than once. */
  function Deliver(fault: Fault, c: State, r: Request): (State, Reply) {
    match fault
    case Answer => Exec(c, r)
    case Refuse(code) => (c, Failed(code))
    case Lose => (Exec(c, r).0, Failed(None))
    case Resend(more, answered) =>
      if r.CreateUser? then
        var (c', reply) := Resent(c, r, more + 1);
        (c', if answered then reply else Failed(None))
      else (Exec(c, r).0, if answered then LateReply(c, r) else Failed(None))
  }

  lemma SecondTime(c: State, r: Request)
    requires !r.CreateUser? && !r.ImportCards?
    ensures Exec(Exec(c, r).0, r) == (Exec(c, r).0, LateReply(c, r))
  {
    var c' := Exec(c, r).0;
    if r.UpdateUser? && r.fields.email.Some? && r.user in c.users {
      assert EmailTaken(c', Some(r.user), r.fields.email.value) <==> EmailTaken(c, Some(r.user), r.fields.email.value);
    }
    assert Exec(c', r).0.users == c'.users && Exec(c', r).0.bound == c'.bound;
  }

  lemma {:induction false} ResentSettles(c: State, r: Request, n: nat)
    requires !r.CreateUser?
    ensures Resent(c, r, n) == (Exec(c, r).0, if n == 0 then Exec(c, r).1 else LateReply(c, r))
  {
    if n > 0 {
      ResentSettles(c, r, n - 1);
      if !r.ImportCards? {
        SecondTime(c, r);
      }
    }
  }

  /** What is delivered is what the retry loop leaves: so many sendings, and the last answer or none. */
  lemma DeliverIsResending(more: nat, answered: bool, c: State, r: Request)
    ensures var (c', reply) := Resent(c, r, more + 1);
      Deliver(Resend(more, answered), c, r) == (c', if answered then reply else Failed(None))
  {
    if !r.CreateUser? {
      ResentSettles(c, r, more + 1);
    }
  }

  ghost function Send(f: Faults, s: Session, r: Request): (Session, Reply) {
    var (c, reply) := Deliver(f(|s.log|), s.ctl, r);
    (s.(ctl := c, log := s.log + [Event(r, s.ctl, reply)]), reply)
  }

  function OutcomeOf(reply: Reply): Outcome {
    if reply.Failed? then Raised(reply.code) else Fine
  }

  ghost function Call(f: Faults, s: Session, r: Request): Step {
    var (s1, reply) := Send(f, s, r);
    Step(s1, OutcomeOf(reply))
  }

  // ---- writing user records: the email is best effort ----

  predicate IsEmailConflict(code: Option<string>) {
    code.Some? && var suffix := "EMAIL_EXIST";
    |code.value| >= |suffix| && code.value[|code.value| - |suffix|..] == suffix
  }

  const NOTHING := Fields(None, None, None)

  function WriteRequest(target: Option<UserId>, fields: Fields): Request {
    match target case Some(u) => UpdateUser(u, fields) case None => CreateUser(fields)
  }

  ghost function WriteUser(f: Faults, s: Session, target: Option<UserId>, fields: Fields): (Session, Reply) {
    var (s1, reply) := Send(f, s, WriteRequest(target, fields));
    if !reply.Failed? || fields.email.None? || !IsEmailConflict(reply.code) then (s1, reply)
    else
      var rest := fields.(email := None);
      if rest == NOTHING then (s1, Done) else Send(f, s1, WriteRequest(target, rest))
  }

  // ---- cards ----

  function CachedCards(cache: Cache, k: ContactId): seq<Token> {
    if k in cache.cards then cache.cards[k] else []
  }

  /** Delete the listed cards one by one, sparing `keep`; the first failure ends the sweep. */
  ghost function Sweep(f: Faults, s: Session, u: UserId, tokens: seq<Token>, keep: Option<Token>): Step
    decreases |tokens|
  {
    if tokens == [] then Step(s, Fine)
    else if Some(tokens[0]) == keep then Sweep(f, s, u, tokens[1..], keep)
    else
      var step := Call(f, s, DeleteCard(u, tokens[0]));
      if step.out.Raised? then step else Sweep(f, step.s, u, tokens[1..], keep)
  }

  /** Not active for certain: a blank status is not enough. */
  predicate IsDisabled(status: string) {
    var t := Upper(Strip(status));
    t != "" && t != ACTIVE
  }

  function Without(tokens: seq<Token>, t: Token): seq<Token> {
    if tokens == [] then []
    else Without(tokens[..|tokens| - 1], t) + if tokens[|tokens| - 1] != t then [tokens[|tokens| - 1]] else []
  }

  /** Drop a reclaimed card from the cached list of the user it was taken from. */
  function ForgetHolderCard(cache: Cache, h: Holder, t: Token): Cache {
    if h.employee.None? || h.employee.value !in cache.cards then cache
    else cache.(cards := cache.cards[h.employee.value := Without(cache.cards[h.employee.value], t)])
  }

  ghost function Reclaim(f: Faults, s: Session, u: UserId, t: Token, h: Holder): Step {
    var step := Call(f, s, BindCard(u, t, true));
    if step.out.Raised? then step
    else
      var cache := step.s.cache;
      Step(step.s.(cache := ForgetHolderCard(cache.(holders := cache.holders - {t}), h, t)), Fine)
  }

  /** Bind a card; on a conflict take it over, but only from a holder known to be disabled. */
  ghost function Bind(f: Faults, s: Session, u: UserId, t: Token): Step {
    var step := Call(f, s, BindCard(u, t, false));
    if step.out == Raised(Some(CODE_HAS_BIND_USER)) && t in step.s.cache.holders &&
       step.s.cache.holders[t].user != u && IsDisabled(step.s.cache.holders[t].status)
    then Reclaim(f, step.s, u, t, step.s.cache.holders[t])
    else step
  }

  function KnownToken(cache: Cache, c: CardId): Option<Token> {
    if cache.tokenMap.None? then None else Lookup(cache.tokenMap.value, c)
  }

  ghost function AttachCard(f: Faults, s: Session, u: UserId, card: Option<CardId>): Step {
    if card.None? then Step(s, Fine)
    else match KnownToken(s.cache, card.value)
      case None => Step(s, Raised(None))
      case Some(t) => Bind(f, s, u, t)
  }

  ghost function AssignPolicy(f: Faults, s: Session, u: UserId, policy: Option<string>): Step {
    if policy.None? then Step(s, Fine) else Call(f, s, SetPolicies(u, [policy.value]))
  }

  // ---- one entry of the difference ----

  datatype Task =
    | Deactivate(user: UnifiUser) | Credential(pair: Pair) | Policy(pair: Pair) | Add(member: ResolvedMember)

  /** A contact's failure is recorded and the run goes on. */
  function Record(step: Step, k: ContactId): Session {
    if step.out.Raised? then step.s.(failures := step.s.failures + [k]) else step.s
  }

  function MarkDeactivated(cache: Cache, k: ContactId, u: UserId): Cache {
    cache.(holders := map t | t in cache.holders ::
      if t in CachedCards(cache, k) && cache.holders[t].user == u
      then cache.holders[t].(status := DEACTIVATED) else cache.holders[t])
  }

  /** Freeing the cards is best effort; the deactivation itself is not. */
  ghost function DeactivateUser(f: Faults, s: Session, k: ContactId, u: UserId): Step {
    var swept := Sweep(f, s, u, CachedCards(s.cache, k), None).s;
    var step := Call(f, swept, SetStatus(u, DEACTIVATED));
    if step.out.Raised? then step else Step(step.s.(cache := MarkDeactivated(step.s.cache, k, u)), Fine)
  }

  function EmailText(email: Option<string>): string {
    if email.None? then "" else email.value
  }

  function CredentialFields(r: ResolvedMember, x: UnifiUser): Fields
    requires r.name != "" || x.name == ""
  {
    Fields(if r.name != x.name then Some(SplitName(r.name)) else None,
           None,
           if EmailDiffers(r.email, x.email) then Some(EmailText(r.email)) else None)
  }

  ghost function WriteRecord(f: Faults, s: Session, u: UserId, fields: Fields): Step {
    if fields == NOTHING then Step(s, Fine)
    else
      var (s1, reply) := WriteUser(f, s, Some(u), fields);
      Step(s1, OutcomeOf(reply))
  }

  ghost function UpdateCredential(f: Faults, s: Session, p: Pair, u: UserId): Step
    requires p.member.name != "" || p.user.name == ""
  {
    var r := p.member;
    var written := WriteRecord(f, s, u, CredentialFields(r, p.user));
    if written.out.Raised? || r.card == p.user.card then written
    else
      var swept := Sweep(f, written.s, u, CachedCards(written.s.cache, r.contact), None);
      if swept.out.Raised? then swept else AttachCard(f, swept.s, u, r.card)
  }

  /** Card and policy first; the account is switched on last. */
  ghost function SwitchOn(f: Faults, s: Session, r: ResolvedMember, u: UserId): Step {
    var attached := AttachCard(f, s, u, r.card);
    if attached.out.Raised? then attached
    else
      var granted := AssignPolicy(f, attached.s, u, r.policy);
      if granted.out.Raised? then granted else Call(f, granted.s, SetStatus(u, ACTIVE))
  }

  ghost function Reactivate(f: Faults, s: Session, r: ResolvedMember, u: UserId): Step
    requires r.name != ""
  {
    var written := WriteRecord(f, s, u, Fields(Some(SplitName(r.name)), Some(r.contact), Some(EmailText(r.email))));
    if written.out.Raised? then written
    else
      var keep := if r.card.None? then None else KnownToken(written.s.cache, r.card.value);
      var swept := Sweep(f, written.s, u, CachedCards(written.s.cache, r.contact), keep);
      if swept.out.Raised? then swept else SwitchOn(f, swept.s, r, u)
  }

  ghost function Create(f: Faults, s: Session, r: ResolvedMember): Step
    requires r.name != ""
  {
    var (s1, reply) := WriteUser(f, s, None, Fields(Some(SplitName(r.name)), Some(r.contact), r.email));
    if !reply.Created? then Step(s1, Raised(if reply.Failed? then reply.code else None))
    else
      var u := reply.user;
      var s2 := s1.(cache := s1.cache.(userIds := s1.cache.userIds[r.contact := u]));
      var attached := AttachCard(f, s2, u, r.card);
      if attached.out.Raised? then attached else AssignPolicy(f, attached.s, u, r.policy)
  }

  predicate Named(t: Task) {
    (t.Credential? ==> t.pair.member.name != "") && (t.Add? ==> t.member.name != "")
  }

  function TaskContact(t: Task): ContactId {
    match t
    case Deactivate(x) => x.contact
    case Credential(p) => p.member.contact
    case Policy(p) => p.member.contact
    case Add(r) => r.contact
  }

  /** Splitting an empty name raises an error that no loop catches: the whole apply ends there. */
  predicate Crashes(s: Session, t: Task) {
    match t
    case Credential(p) => p.member.contact in s.cache.userIds && p.member.name == "" && p.user.name != ""
    case Add(r) => r.name == ""
    case _ => false
  }

  ghost function RunTask(f: Faults, s: Session, t: Task): Session
    requires !Crashes(s, t)
  {
    var k := TaskContact(t);
    if t.Add? then
      Record(if k in s.cache.userIds then Reactivate(f, s, t.member, s.cache.userIds[k]) else Create(f, s, t.member), k)
    else if k !in s.cache.userIds then s
    else
      var u := s.cache.userIds[k];
      match t
      case Deactivate(_) => Record(DeactivateUser(f, s, k, u), k)
      case Credential(p) => Record(UpdateCredential(f, s, p, u), k)
      case Policy(p) => Record(AssignPolicy(f, s, u, p.member.policy), k)
  }

  ghost predicate AllNamed(ts: seq<Task>) {
    forall i :: 0 <= i < |ts| ==> Named(ts[i])
  }

  ghost function RunTasks(f: Faults, s: Session, ts: seq<Task>): Session
    requires AllNamed(ts)
  {
    if ts == [] then s
    else RunTask(f, RunTasks(f, s, ts[..|ts| - 1]), ts[|ts| - 1])
  }

  /** The entries in order, up to the first that crashes, and whether there was one. */
  ghost function RunUntilCrash(f: Faults, s: Session, ts: seq<Task>): (Session, bool) {
    if ts == [] then (s, false)
    else
      var (before, crashed) := RunUntilCrash(f, s, ts[..|ts| - 1]);
      if crashed || Crashes(before, ts[|ts| - 1]) then (before, true)
      else (RunTask(f, before, ts[|ts| - 1]), false)
  }

  lemma {:induction false} NamedNeverCrash(f: Faults, s: Session, ts: seq<Task>)
    requires AllNamed(ts)
    ensures RunUntilCrash(f, s, ts) == (RunTasks(f, s, ts), false)
  {
    if ts != [] {
      NamedNeverCrash(f, s, ts[..|ts| - 1]);
      assert Named(ts[|ts| - 1]);
    }
  }

  function Deactivations(d: Diff): seq<Task> {
    seq(|d.toDeactivate|, i requires 0 <= i < |d.toDeactivate| => Deactivate(d.toDeactivate[i]))
  }

  function Credentials(d: Diff): seq<Task> {
    seq(|d.toUpdateCredential|, i requires 0 <= i < |d.toUpdateCredential| => Credential(d.toUpdateCredential[i]))
  }

  function Policies(d: Diff): seq<Task> {
    seq(|d.toUpdatePolicy|, i requires 0 <= i < |d.toUpdatePolicy| => Policy(d.toUpdatePolicy[i]))
  }

  function Additions(d: Diff): seq<Task> {
    seq(|d.toAdd|, i requires 0 <= i < |d.toAdd| => Add(d.toAdd[i]))
  }

  /** The order of one run: cut access, swap credentials, set policies, then let members in. */
  function Tasks(d: Diff): seq<Task> {
    Deactivations(d) + Credentials(d) + Policies(d) + Additions(d)
  }

  // ---- the card list and the import ----

  /** A card of the list that carries a door-sync alias. */
  datatype Entry = Entry(card: CardId, token: Token)

  /** The listed cards door-sync imported; the others are skipped. */
  function SyncEntries(rows: seq<CardRow>): seq<Entry> {
    if rows == [] then []
    else
      var row := rows[|rows| - 1];
      SyncEntries(rows[..|rows| - 1]) +
      match ParseSyncAlias(row.alias) case None => [] case Some(c) => [Entry(c, row.token)]
  }

  /** Card numbers to tokens; a later entry replaces an earlier one. */
  function IndexCards(m: map<CardId, Token>, es: seq<Entry>): map<CardId, Token> {
    if es == [] then m
    else IndexCards(m, es[..|es| - 1])[es[|es| - 1].card := es[|es| - 1].token]
  }

  /** Tokens to card numbers. */
  function IndexTokens(m: map<Token, CardId>, es: seq<Entry>): map<Token, CardId> {
    if es == [] then m
    else IndexTokens(m, es[..|es| - 1])[es[|es| - 1].token := es[|es| - 1].card]
  }

  /** A paged read: how many pages came back, and how it ended. */
  datatype PagedRead = PagedRead(s: Session, pages: nat, out: Outcome)

  /** Ask for the pages of a list of `n` cards, from page `p` (counted from 1) on. */
  ghost function ReadPages(f: Faults, s: Session, n: nat, p: nat): PagedRead
    requires p >= 1
    decreases USERS_PAGES + 1 - p
  {
    if p > USERS_PAGES then PagedRead(s, p - 1, Raised(None))
    else
      var (s1, reply) := Send(f, s, GetCards(p));
      if reply.Failed? then PagedRead(s1, p - 1, Raised(reply.code))
      else if n < p * USERS_PAGE then PagedRead(s1, p, Fine)
      else ReadPages(f, s1, n, p + 1)
  }

  function FirstRows<T>(xs: seq<T>, n: nat): seq<T> {
    if n <= |xs| then xs[..n] else xs
  }

  /** The rows read are indexed both ways; the map counts only when the whole list was read. */
  ghost function LoadCards(f: Faults, s: Session): Step {
    var read := ReadPages(f, s, |s.ctl.cards|, 1);
    var es := SyncEntries(FirstRows(s.ctl.cards, read.pages * USERS_PAGE));
    Step(read.s.(cache := s.cache.(
           tokenMap := if read.out.Fine? then Some(IndexCards(map[], es)) else None,
           cardOf := IndexTokens(s.cache.cardOf, es))),
         read.out)
  }

  ghost function EnsureTokenMap(f: Faults, s: Session): Step {
    if s.cache.tokenMap.Some? then Step(s, Fine) else LoadCards(f, s)
  }

  function InsertSorted(x: CardId, xs: seq<CardId>): seq<CardId> {
    if xs == [] || x < xs[0] then [x] + xs
    else if x == xs[0] then xs
    else [xs[0]] + InsertSorted(x, xs[1..])
  }

  /** The cards to be written that have no token yet, as a sorted set. */
  function NeededCards(ws: seq<ResolvedMember>, m: map<CardId, Token>): seq<CardId> {
    if ws == [] then []
    else
      var front := NeededCards(ws[..|ws| - 1], m);
      var card := ws[|ws| - 1].card;
      if card.Some? && card.value !in m then InsertSorted(card.value, front) else front
  }

  function ImportLines(facility: nat, cards: seq<CardId>): (lines: seq<ImportLine>)
    ensures |lines| == |cards|
  {
    seq(|cards|, i requires 0 <= i < |cards| =>
      ImportLine(ComputeNfcId(facility, cards[i]), SyncAlias(cards[i])))
  }

  /** Take the rows of an import answer one by one; a row of another facility ends it with an error. */
  function TakeImported(cache: Cache, facility: nat, rows: seq<ImportRow>): (Cache, bool)
    requires cache.tokenMap.Some?
    ensures TakeImported(cache, facility, rows).0.tokenMap.Some?
  {
    if rows == [] then (cache, true)
    else
      var (front, ok) := TakeImported(cache, facility, rows[..|rows| - 1]);
      var row := rows[|rows| - 1];
      match ParseNfcId(row.nfcId, facility)
      case None => (front, false)
      case Some(c) =>
        if !ok then (front, false)
        else (front.(tokenMap := Some(front.tokenMap.value[c := row.token]),
                     cardOf := front.cardOf[row.token := c]), true)
  }

  ghost function Import(f: Faults, cfg: Config, s: Session, cards: seq<CardId>): Step
    requires s.cache.tokenMap.Some?
  {
    var (s1, reply) := Send(f, s, ImportCards(ImportLines(cfg.facility, cards)));
    if !reply.Imported? then Step(s1, Raised(if reply.Failed? then reply.code else None))
    else
      var (cache, ok) := TakeImported(s1.cache, cfg.facility, reply.rows);
      Step(s1.(cache := cache), if ok then Fine else Raised(None))
  }

  ghost function PreImport(f: Faults, cfg: Config, s: Session, d: Diff): Step {
    if d.toAdd == [] && d.toUpdateCredential == [] then Step(s, Fine)
    else
      var loaded := EnsureTokenMap(f, s);
      if loaded.out.Raised? || loaded.s.cache.tokenMap.None? then loaded
      else
        var needed := NeededCards(Writers(d), loaded.s.cache.tokenMap.value);
        if needed == [] then loaded else Import(f, cfg, loaded.s, needed)
  }

  /** Members to be written have names; the splitter raises on an empty one. */
  ghost predicate NamesOk(d: Diff) {
    forall w :: w in Writers(d) ==> w.name != ""
  }

  ghost function Apply(f: Faults, cfg: Config, s: Session, d: Diff): Step {
    var pre := PreImport(f, cfg, s.(failures := []), d);
    if pre.out.Raised? then pre
    else
      var (s', crashed) := RunUntilCrash(f, pre.s, Tasks(d));
      Step(s', if !crashed && s'.failures == [] then Fine else Raised(None))
  }

  /** With named members an apply is the import and then every entry in turn. */
  lemma NamedApply(f: Faults, cfg: Config, s: Session, d: Diff)
    requires NamesOk(d)
    ensures AllNamed(Tasks(d))
    ensures var pre := PreImport(f, cfg, s.(failures := []), d); var s' := RunTasks(f, pre.s, Tasks(d));
      Apply(f, cfg, s, d) == if pre.out.Raised? then pre else Step(s', if s'.failures == [] then Fine else Raised(None))
  {
    TasksAreNamed(d);
    NamedNeverCrash(f, PreImport(f, cfg, s.(failures := []), d).s, Tasks(d));
  }

  // ---- facts the definitions above need ----

  /** A bind is its plain request, or ends with taking the card over. */
  lemma BindIsPlainOrReclaim(f: Faults, s: Session, u: UserId, t: Token)
    ensures var step := Call(f, s, BindCard(u, t, false)); var r := Bind(f, s, u, t);
      r == step || (t in step.s.cache.holders && IsDisabled(step.s.cache.holders[t].status) &&
                    step.s.cache.holders[t].user != u && r == Reclaim(f, step.s, u, t, step.s.cache.holders[t]))
  {
  }

  lemma {:induction false} NeededFrom(ws: seq<ResolvedMember>, m: map<CardId, Token>)
    ensures forall c :: c in NeededCards(ws, m) <==> c !in m && exists w :: w in ws && w.card == Some(c)
  {
    if ws != [] {
      var front, w := ws[..|ws| - 1], ws[|ws| - 1];
      NeededFrom(front, m);
      if w.card.Some? {
        InsertedOne(w.card.value, NeededCards(front, m));
      }
      assert forall v :: v in ws <==> v in front || v == w;
    }
  }

  lemma {:induction false} InsertedOne(x: CardId, xs: seq<CardId>)
    ensures forall c :: c in InsertSorted(x, xs) <==> c == x || c in xs
  {
    if xs != [] && x > xs[0] {
      InsertedOne(x, xs[1..]);
      assert forall c :: c in xs <==> c == xs[0] || c in xs[1..];
    }
  }

  lemma NeededInRange(d: Diff, m: map<CardId, Token>)
    requires CardsInRange(d)
    ensures forall i :: 0 <= i < |NeededCards(Writers(d), m)| ==> 0 <= NeededCards(Writers(d), m)[i] <= MAX_CARD
  {
    var needed := NeededCards(Writers(d), m);
    NeededFrom(Writers(d), m);
    forall i | 0 <= i < |needed| ensures 0 <= needed[i] <= MAX_CARD {
      assert needed[i] in needed;
    }
  }

  lemma TasksAreNamed(d: Diff)
    requires NamesOk(d)
    ensures AllNamed(Tasks(d))
  {
    var ws, ts := Writers(d), Tasks(d);
    forall i | 0 <= i < |d.toAdd| ensures d.toAdd[i].name != "" {
      assert ws[i] == d.toAdd[i];
    }
    forall i | 0 <= i < |d.toUpdateCredential| ensures d.toUpdateCredential[i].member.name != "" {
      assert ws[|d.toAdd| + i] == d.toUpdateCredential[i].member;
    }
  }
}
