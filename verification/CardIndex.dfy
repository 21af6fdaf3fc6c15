/**
The two card indexes (number to token, token to number) through loading and importing.
*/
module CardIndex {
  import opened Models
  import opened Codec
  import opened Controller
  import opened Protocol
  import opened Safety
  import opened Snapshot

  // ---- the indexes ----

  lemma {:induction false} IndexConcat(m: map<CardId, Token>, n: map<Token, CardId>, a: seq<Entry>, b: seq<Entry>)
    ensures IndexCards(m, a + b) == IndexCards(IndexCards(m, a), b)
    ensures IndexTokens(n, a + b) == IndexTokens(IndexTokens(n, a), b)
  {
    if b == [] {
      assert a + b == a;
    } else {
      assert (a + b)[..|a + b| - 1] == a + b[..|b| - 1];
      IndexConcat(m, n, a, b[..|b| - 1]);
    }
  }

  lemma {:induction false} EntriesConcat(a: seq<CardRow>, b: seq<CardRow>)
    ensures SyncEntries(a + b) == SyncEntries(a) + SyncEntries(b)
  {
    if b == [] {
      assert a + b == a;
    } else {
      assert (a + b)[..|a + b| - 1] == a + b[..|b| - 1];
      EntriesConcat(a, b[..|b| - 1]);
    }
  }

  /** Reading the number of a card's token gives the card back. */
  ghost predicate LeftInverse(m: map<CardId, Token>, n: map<Token, CardId>) {
    forall c :: c in m ==> m[c] in n && n[m[c]] == c
  }

  ghost predicate DistinctTokens(es: seq<Entry>) {
    forall i, j :: 0 <= i < j < |es| ==> es[i].token != es[j].token
  }

  lemma {:induction false} IndexesFollowEntries(es: seq<Entry>)
    ensures forall c :: c in IndexCards(map[], es) ==> Entry(c, IndexCards(map[], es)[c]) in es
    ensures forall t :: t in IndexTokens(map[], es) ==> Entry(IndexTokens(map[], es)[t], t) in es
    ensures forall e :: e in es ==> e.card in IndexCards(map[], es) && e.token in IndexTokens(map[], es)
  {
    if es != [] {
      IndexesFollowEntries(es[..|es| - 1]);
      assert es == es[..|es| - 1] + [es[|es| - 1]];
    }
  }

  lemma TokenDetermines(es: seq<Entry>, e: Entry, e': Entry)
    requires DistinctTokens(es) && e in es && e' in es && e.token == e'.token
    ensures e == e'
  {
  }

  /** With distinct tokens, the token index undoes the card index. */
  lemma LoadedIndexesAgree(es: seq<Entry>)
    requires DistinctTokens(es)
    ensures LeftInverse(IndexCards(map[], es), IndexTokens(map[], es))
    ensures forall e :: e in es ==> e.token in IndexTokens(map[], es) && IndexTokens(map[], es)[e.token] == e.card
  {
    var m, n := IndexCards(map[], es), IndexTokens(map[], es);
    IndexesFollowEntries(es);
    forall e | e in es ensures e.token in n && n[e.token] == e.card {
      TokenDetermines(es, e, Entry(n[e.token], e.token));
    }
    forall c | c in m ensures m[c] in n && n[m[c]] == c {
      TokenDetermines(es, Entry(c, m[c]), Entry(n[m[c]], m[c]));
    }
  }

  lemma {:induction false} EntriesFromRows(rows: seq<CardRow>)
    requires forall i, j :: 0 <= i < j < |rows| ==> rows[i].token != rows[j].token
    ensures DistinctTokens(SyncEntries(rows))
    ensures forall e :: e in SyncEntries(rows) ==> exists i :: 0 <= i < |rows| && rows[i].token == e.token
  {
    if rows != [] {
      var front := rows[..|rows| - 1];
      EntriesFromRows(front);
      forall e | e in SyncEntries(front) ensures exists i :: 0 <= i < |rows| && rows[i].token == e.token {
        var i :| 0 <= i < |front| && front[i].token == e.token;
        assert rows[i] == front[i];
      }
      forall e | e in SyncEntries(front) ensures e.token != rows[|rows| - 1].token {
        var i :| 0 <= i < |front| && front[i].token == e.token;
        assert rows[i] == front[i];
      }
      assert forall e :: e in SyncEntries(rows) ==> e in SyncEntries(front) || e.token == rows[|rows| - 1].token;
    }
  }

  ghost predicate Injective(m: map<CardId, Token>) {
    forall a, b :: a in m && b in m && m[a] == m[b] ==> a == b
  }

  /** The loaded indexes of a controller: inverse to each other, and the tokens were issued. */
  lemma ControllerIndexes(cache: Cache, c: State)
    requires WellFormed(c) && CardsLoaded(cache, c)
    ensures LeftInverse(cache.tokenMap.value, cache.cardOf)
    ensures Injective(cache.tokenMap.value)
    ensures forall a :: a in cache.tokenMap.value ==> cache.tokenMap.value[a] < c.nextToken
  {
    var es := SyncEntries(c.cards);
    EntriesFromRows(c.cards);
    LoadedIndexesAgree(es);
    IndexesFollowEntries(es);
    var m, n := cache.tokenMap.value, cache.cardOf;
    forall a, b | a in m && b in m && m[a] == m[b] ensures a == b {
      assert n[m[a]] == a && n[m[b]] == b;
    }
    forall a | a in m ensures m[a] < c.nextToken {
      assert Entry(a, m[a]) in es;
      var i :| 0 <= i < |c.cards| && c.cards[i].token == m[a];
    }
  }

  // ---- loading ----

  /** Nothing but the card indexes and the log changed, and only card-list requests were sent. */
  ghost predicate OnlyIndexed(s: Session, s': Session) {
    && s'.ctl.users == s.ctl.users && s'.ctl.bound == s.ctl.bound
    && s'.ctl.adminEmails == s.ctl.adminEmails && s'.ctl.nextUser == s.ctl.nextUser
    && s'.cache == s.cache.(tokenMap := s'.cache.tokenMap, cardOf := s'.cache.cardOf)
    && s'.failures == s.failures
    && s.log <= s'.log
    && forall i :: |s.log| <= i < |s'.log| ==> s'.log[i].request.GetCards? || s'.log[i].request.ImportCards?
  }

  ghost predicate NoFaults(f: Faults) {
    forall n :: f(n) == Answer
  }

  lemma OnlyIndexedTransitive(a: Session, b: Session, c: Session)
    requires OnlyIndexed(a, b) && OnlyIndexed(b, c)
    ensures OnlyIndexed(a, c)
  {
  }

  lemma {:induction false} ReadPagesResult(f: Faults, s: Session, n: nat, p: nat)
    requires 1 <= p <= USERS_PAGES + 1 && (p - 1) * USERS_PAGE <= n
    ensures var r := ReadPages(f, s, n, p);
      && OnlyIndexed(s, r.s) && r.s.ctl == s.ctl && r.s.cache == s.cache
      && (r.out.Fine? ==> n < r.pages * USERS_PAGE)
      && (NoFaults(f) ==> (r.out.Fine? <==> n < USERS_PAGE * USERS_PAGES))
    decreases USERS_PAGES + 1 - p
  {
    if p <= USERS_PAGES {
      var (s1, reply) := Send(f, s, GetCards(p));
      assert OnlyIndexed(s, s1);
      if !reply.Failed? && n >= p * USERS_PAGE {
        ReadPagesResult(f, s1, n, p + 1);
        OnlyIndexedTransitive(s, s1, ReadPages(f, s1, n, p + 1).s);
      }
    }
  }

  /** Loading reads the whole list, and fails without faults exactly when it exceeds the page limit. */
  lemma EnsureTokenMapResult(f: Faults, s: Session)
    requires s.cache.tokenMap.Some? ==> CardsLoaded(s.cache, s.ctl)
    requires s.cache.tokenMap.None? ==> s.cache.cardOf == map[]
    ensures var r := EnsureTokenMap(f, s);
      && OnlyIndexed(s, r.s) && r.s.ctl == s.ctl
      && (r.out.Fine? ==> CardsLoaded(r.s.cache, s.ctl))
      && (NoFaults(f) && s.cache.tokenMap.None? ==> (r.out.Fine? <==> |s.ctl.cards| < USERS_PAGE * USERS_PAGES))
      && (NoFaults(f) && s.cache.tokenMap.Some? ==> r.out.Fine?)
  {
    if s.cache.tokenMap.None? {
      ReadPagesResult(f, s, |s.ctl.cards|, 1);
    }
  }

  // ---- importing ----

  function ImportedEntries(cards: seq<CardId>, first: Token): seq<Entry> {
    seq(|cards|, i requires 0 <= i < |cards| => Entry(cards[i], first + i))
  }

  lemma {:induction false} EntriesOfNumbered(rows: seq<CardRow>, es: seq<Entry>)
    requires |rows| == |es|
    requires forall i :: 0 <= i < |rows| ==> es[i].card >= 0 && es[i].token == rows[i].token
    requires forall i :: 0 <= i < |rows| ==> ParseSyncAlias(rows[i].alias) == Some(es[i].card)
    ensures SyncEntries(rows) == es
  {
    if rows != [] {
      var n := |rows| - 1;
      EntriesOfNumbered(rows[..n], es[..n]);
      assert es == es[..n] + [es[n]];
    }
  }

  ghost predicate NoneNegative(cards: seq<CardId>) {
    forall i :: 0 <= i < |cards| ==> cards[i] >= 0
  }

  /** What is written into the card list is read back as the imported numbers. */
  lemma AliasesReadBack(facility: nat, cards: seq<CardId>, first: Token)
    requires NoneNegative(cards)
    ensures SyncEntries(NewCards(ImportLines(facility, cards), first)) == ImportedEntries(cards, first)
  {
    var added, es := NewCards(ImportLines(facility, cards), first), ImportedEntries(cards, first);
    forall i | 0 <= i < |added| ensures ParseSyncAlias(added[i].alias) == Some(es[i].card) {
      AliasRoundTrip(cards[i]);
    }
    EntriesOfNumbered(added, es);
  }

  ghost function WithIndexes(cache: Cache, es: seq<Entry>): Cache
    requires cache.tokenMap.Some?
  {
    cache.(tokenMap := Some(IndexCards(cache.tokenMap.value, es)), cardOf := IndexTokens(cache.cardOf, es))
  }

  lemma {:induction false} TakeNumbered(cache: Cache, facility: nat, rows: seq<ImportRow>, es: seq<Entry>)
    requires cache.tokenMap.Some? && |rows| == |es|
    requires forall i :: 0 <= i < |rows| ==> es[i].card >= 0 && es[i].token == rows[i].token
    requires forall i :: 0 <= i < |rows| ==> ParseNfcId(rows[i].nfcId, facility) == Some(es[i].card)
    ensures TakeImported(cache, facility, rows) == (WithIndexes(cache, es), true)
  {
    if rows != [] {
      TakeNumbered(cache, facility, rows[..|rows| - 1], es[..|es| - 1]);
    }
  }

  /** The import answer is decoded to the imported numbers. */
  lemma AnswerReadsBack(cache: Cache, facility: nat, cards: seq<CardId>, first: Token)
    requires cache.tokenMap.Some? && facility < FACILITY_CODES
    requires forall i :: 0 <= i < |cards| ==> 0 <= cards[i] <= MAX_CARD
    ensures TakeImported(cache, facility, NewRows(ImportLines(facility, cards), first)) ==
            (WithIndexes(cache, ImportedEntries(cards, first)), true)
  {
    var rows, es := NewRows(ImportLines(facility, cards), first), ImportedEntries(cards, first);
    forall i | 0 <= i < |rows| ensures ParseNfcId(rows[i].nfcId, facility) == Some(es[i].card) {
      NfcRoundTrip(facility, cards[i]);
    }
    TakeNumbered(cache, facility, rows, es);
  }

  /** Importing extends the loaded list by the imported entries. */
  lemma ImportedIndexes(cache: Cache, c: State, c': State, facility: nat, cards: seq<CardId>)
    requires CardsLoaded(cache, c) && NoneNegative(cards)
    requires c'.cards == c.cards + NewCards(ImportLines(facility, cards), c.nextToken)
    ensures CardsLoaded(WithIndexes(cache, ImportedEntries(cards, c.nextToken)), c')
  {
    var added := NewCards(ImportLines(facility, cards), c.nextToken);
    AliasesReadBack(facility, cards, c.nextToken);
    EntriesConcat(c.cards, added);
    IndexConcat(map[], map[], SyncEntries(c.cards), SyncEntries(added));
  }

  /** The request is carried out and its answer comes back. */
  predicate IsAnswered(fault: Fault) {
    fault.Answer? || (fault.Resend? && fault.answered)
  }

  lemma ImportUnfolds(f: Faults, cfg: Config, s: Session, cards: seq<CardId>)
    requires s.cache.tokenMap.Some? && cfg.facility < FACILITY_CODES
    requires forall i :: 0 <= i < |cards| ==> 0 <= cards[i] <= MAX_CARD
    ensures var r := ImportCards(ImportLines(cfg.facility, cards));
      var s1 := Send(f, s, r).0;
      Import(f, cfg, s, cards) ==
        if IsAnswered(f(|s.log|)) then
          Step(s1.(cache := WithIndexes(s.cache, ImportedEntries(cards, s.ctl.nextToken))), Fine)
        else Call(f, s, r)
  {
    AnswerReadsBack(s.cache, cfg.facility, cards, s.ctl.nextToken);
  }

  lemma ImportResult(f: Faults, cfg: Config, s: Session, cards: seq<CardId>)
    requires CardsLoaded(s.cache, s.ctl) && cfg.facility < FACILITY_CODES
    requires forall i :: 0 <= i < |cards| ==> 0 <= cards[i] <= MAX_CARD
    requires WellFormed(s.ctl)
    ensures var r := Import(f, cfg, s, cards);
      && OnlyIndexed(s, r.s) && WellFormed(r.s.ctl)
      && (r.out.Fine? ==> CardsLoaded(r.s.cache, r.s.ctl))
      && (r.out.Fine? ==> r.s.ctl.cards == s.ctl.cards + NewCards(ImportLines(cfg.facility, cards), s.ctl.nextToken))
      && s.ctl.nextToken <= r.s.ctl.nextToken
      && (NoFaults(f) ==> r.out.Fine?)
  {
    var request := ImportCards(ImportLines(cfg.facility, cards));
    ExecKeepsWellFormed(s.ctl, request);
    ImportUnfolds(f, cfg, s, cards);
    ImportedIndexes(s.cache, s.ctl, Exec(s.ctl, request).0, cfg.facility, cards);
    assert OnlyIndexed(s, Send(f, s, request).0);
  }

  // ---- the shared prerequisite of a run ----

  /** Every card to be written has a token. */
  ghost predicate TokensKnown(d: Diff, m: map<CardId, Token>) {
    forall w :: w in Writers(d) && w.card.Some? ==> w.card.value in m
  }

  /** Cards were added to the list, with tokens never issued before; known numbers keep their token. */
  ghost predicate CardsExtend(c: State, c': State) {
    && c.nextToken <= c'.nextToken && c.cards <= c'.cards
    && (forall i :: |c.cards| <= i < |c'.cards| ==> c'.cards[i].token >= c.nextToken)
    && TokensExtend(CardTokens(c), CardTokens(c'), c.nextToken)
  }

  /** The token each card number is written with. */
  function CardTokens(c: State): map<CardId, Token> {
    IndexCards(map[], SyncEntries(c.cards))
  }

  ghost predicate TokensExtend(m: map<CardId, Token>, m': map<CardId, Token>, first: Token) {
    && (forall n :: n in m ==> n in m' && m'[n] == m[n])
    && (forall n :: n in m' && n !in m ==> m'[n] >= first)
  }

  lemma {:induction false} FreshEntriesExtend(m: map<CardId, Token>, es: seq<Entry>, first: Token)
    requires forall e :: e in es ==> e.card !in m && e.token >= first
    ensures TokensExtend(m, IndexCards(m, es), first)
  {
    if es != [] {
      var front := es[..|es| - 1];
      assert es == front + [es[|es| - 1]];
      FreshEntriesExtend(m, front, first);
    }
  }

  lemma {:induction false} ImportedAreFresh(m: map<CardId, Token>, needed: seq<CardId>, first: Token)
    requires forall n :: n in needed ==> n !in m
    ensures TokensExtend(m, IndexCards(m, ImportedEntries(needed, first)), first)
  {
    var es := ImportedEntries(needed, first);
    forall e | e in es ensures e.card !in m && e.token >= first {
      var i :| 0 <= i < |es| && es[i] == e;
      assert needed[i] in needed;
    }
    FreshEntriesExtend(m, es, first);
  }

  /** Importing numbers that had no token changes no token. */
  lemma ImportExtends(c: State, c': State, facility: nat, needed: seq<CardId>)
    requires NoneNegative(needed) && forall n :: n in needed ==> n !in CardTokens(c)
    requires c'.cards == c.cards + NewCards(ImportLines(facility, needed), c.nextToken) && c.nextToken <= c'.nextToken
    ensures CardsExtend(c, c')
  {
    AliasesReadBack(facility, needed, c.nextToken);
    AddedExtend(c, c', NewCards(ImportLines(facility, needed), c.nextToken), needed);
  }

  lemma {:induction false} AddedExtend(c: State, c': State, added: seq<CardRow>, needed: seq<CardId>)
    requires SyncEntries(added) == ImportedEntries(needed, c.nextToken)
    requires forall n :: n in needed ==> n !in CardTokens(c)
    requires forall i :: 0 <= i < |added| ==> added[i].token >= c.nextToken
    requires c'.cards == c.cards + added && c.nextToken <= c'.nextToken
    ensures CardsExtend(c, c')
  {
    EntriesConcat(c.cards, added);
    IndexConcat(map[], map[], SyncEntries(c.cards), ImportedEntries(needed, c.nextToken));
    ImportedAreFresh(CardTokens(c), needed, c.nextToken);
  }

  /** Importing what is needed makes every written card known. */
  lemma ImportStep(f: Faults, cfg: Config, s: Session, d: Diff)
    requires WellFormed(s.ctl) && CardsInRange(d) && cfg.facility < FACILITY_CODES && CardsLoaded(s.cache, s.ctl)
    requires NeededCards(Writers(d), s.cache.tokenMap.value) != []
    ensures var needed := NeededCards(Writers(d), s.cache.tokenMap.value);
      var r := Import(f, cfg, s, needed);
      && OnlyIndexed(s, r.s) && WellFormed(r.s.ctl) && (NoFaults(f) ==> r.out.Fine?)
      && (r.out.Fine? ==> CardsLoaded(r.s.cache, r.s.ctl) && TokensKnown(d, r.s.cache.tokenMap.value))
      && (r.out.Fine? ==> CardsExtend(s.ctl, r.s.ctl))
  {
    var needed := NeededCards(Writers(d), s.cache.tokenMap.value);
    NeededInRange(d, s.cache.tokenMap.value);
    NeededFrom(Writers(d), s.cache.tokenMap.value);
    ImportResult(f, cfg, s, needed);
    var r := Import(f, cfg, s, needed);
    if r.out.Fine? {
      ImportExtends(s.ctl, r.s.ctl, cfg.facility, needed);
      ImportMakesKnown(cfg, s.ctl.cards, s.ctl.nextToken, d, needed);
    }
  }

  /** When nothing is needed every written card is known already. */
  lemma NothingNeeded(d: Diff, m: map<CardId, Token>)
    requires NeededCards(Writers(d), m) == []
    ensures TokensKnown(d, m)
  {
    NeededFrom(Writers(d), m);
    forall w | w in Writers(d) && w.card.Some? ensures w.card.value in m {
      var n := w.card.value;
      assert n !in NeededCards(Writers(d), m) && w.card == Some(n);
    }
  }

  lemma PreImportResult(f: Faults, cfg: Config, s: Session, d: Diff)
    requires WellFormed(s.ctl) && CardsInRange(d) && cfg.facility < FACILITY_CODES
    requires s.cache.tokenMap.Some? ==> CardsLoaded(s.cache, s.ctl)
    requires s.cache.tokenMap.None? ==> s.cache.cardOf == map[]
    ensures var r := PreImport(f, cfg, s, d);
      && OnlyIndexed(s, r.s) && WellFormed(r.s.ctl)
      && (r.out.Fine? && Writers(d) != [] ==>
            CardsLoaded(r.s.cache, r.s.ctl) && TokensKnown(d, r.s.cache.tokenMap.value))
      && (r.out.Fine? ==> CardsExtend(s.ctl, r.s.ctl))
      && (r.out.Fine? && Writers(d) == [] ==> r.s == s)
      && (NoFaults(f) && |s.ctl.cards| < USERS_PAGE * USERS_PAGES ==> r.out.Fine?)
  {
    assert Writers(d) == [] <==> d.toAdd == [] && d.toUpdateCredential == [];
    if Writers(d) != [] {
      EnsureTokenMapResult(f, s);
      var loaded := EnsureTokenMap(f, s);
      if loaded.out.Fine? {
        if NeededCards(Writers(d), loaded.s.cache.tokenMap.value) == [] {
          NothingNeeded(d, loaded.s.cache.tokenMap.value);
        } else {
          ImportStep(f, cfg, loaded.s, d);
          OnlyIndexedTransitive(s, loaded.s, PreImport(f, cfg, s, d).s);
        }
      }
    }
  }

  lemma ImportMakesKnown(cfg: Config, cards: seq<CardRow>, first: Token, d: Diff, needed: seq<CardId>)
    requires NoneNegative(needed)
    requires forall c :: c in needed <==>
               c !in IndexCards(map[], SyncEntries(cards)) && exists w :: w in Writers(d) && w.card == Some(c)
    ensures TokensKnown(d, IndexCards(map[], SyncEntries(cards + NewCards(ImportLines(cfg.facility, needed), first))))
  {
    var had, added := SyncEntries(cards), NewCards(ImportLines(cfg.facility, needed), first);
    EntriesConcat(cards, added);
    AliasesReadBack(cfg.facility, needed, first);
    var es := ImportedEntries(needed, first);
    IndexesFollowEntries(had);
    IndexesFollowEntries(had + es);
    forall w | w in Writers(d) && w.card.Some? ensures w.card.value in IndexCards(map[], had + es) {
      var c := w.card.value;
      if c in needed {
        var i :| 0 <= i < |needed| && needed[i] == c;
        assert es[i] in had + es;
      } else {
        assert Entry(c, IndexCards(map[], had)[c]) in had + es;
      }
    }
  }
}
