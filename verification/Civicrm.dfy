/**
The CiviCRM side: contacts that carry a card, joined with their active memberships.
The join is batched, paginated and hashed; it must equal a nested loop over the tables.
*/
module Civicrm {
  import opened Models
  import opened Text
  import opened Paging

  const PAGE_SIZE: nat := 250
  const BATCH_SIZE: nat := 500
  const MAX_PAGES: nat := 1000

  /** A card number as CiviCRM returns it: the type depends on the custom field. */
  datatype RawCard = Missing | Number(value: int) | Digits(text: string) | Other

  datatype ContactRow = ContactRow(
    id: ContactId, name: string, card: RawCard, email: Option<string>, deleted: bool)
  datatype MembershipRow = MembershipRow(contact: ContactId, typeLabel: string, status: string)

  datatype Error = TooManyContacts | TooManyMemberships | UnparseableCard
  datatype Result<T> = Ok(value: T) | Err(error: Error)

  // ---- what the remote queries return ----

  predicate Carded(c: ContactRow) {
    c.card != Missing && c.card != Digits("") && !c.deleted
  }

  /** The contacts that hold a card and are not deleted. */
  function CardedContacts(contacts: seq<ContactRow>): seq<ContactRow> {
    if contacts == [] then []
    else
      var c := contacts[|contacts| - 1];
      CardedContacts(contacts[..|contacts| - 1]) + if Carded(c) then [c] else []
  }

  /** The memberships of the given contacts whose status counts as active. */
  function MembershipsOf(memberships: seq<MembershipRow>, ids: seq<ContactId>, statuses: set<string>)
    : seq<MembershipRow>
  {
    if memberships == [] then []
    else
      var m := memberships[|memberships| - 1];
      MembershipsOf(memberships[..|memberships| - 1], ids, statuses) +
      if m.contact in ids && m.status in statuses then [m] else []
  }

  predicate Overflows<T>(rows: seq<T>) {
    |rows| >= PAGE_SIZE * MAX_PAGES
  }

  // ---- the reference: a nested loop ----

  /** The labels of one contact's active memberships, in table order. */
  function ActiveLabels(memberships: seq<MembershipRow>, id: ContactId, statuses: set<string>): seq<string> {
    if memberships == [] then []
    else
      var m := memberships[|memberships| - 1];
      ActiveLabels(memberships[..|memberships| - 1], id, statuses) +
      if m.contact == id && m.status in statuses then [m.typeLabel] else []
  }

  /** A card number; python's int() also accepts digit-group underscores, which are not modelled. */
  function CoerceCard(raw: RawCard): Option<Option<CardId>> {
    match raw
    case Missing => Some(None)
    case Number(n) => Some(Some(n))
    case Other => None
    case Digits(text) =>
      if text == "" then Some(None)
      else
        var t := Strip(text);
        var negative := t != "" && t[0] == '-';
        var digits := if t != "" && (t[0] == '-' || t[0] == '+') then t[1..] else t;
        match Parse(digits, 10)
        case None => None
        case Some(n) => Some(Some(if negative then -(n as int) else n))
  }

  function CleanEmail(raw: Option<string>): Option<string> {
    if raw.None? || Strip(raw.value) == "" then None else Some(Strip(raw.value))
  }

  /** The member a nested loop over the two tables builds for one contact. */
  function NestedLoopMember(c: ContactRow, memberships: seq<MembershipRow>, statuses: set<string>): CiviMember
    requires CoerceCard(c.card).Some?
  {
    CiviMember(c.id, c.name, CoerceCard(c.card).value, ActiveLabels(memberships, c.id, statuses), CleanEmail(c.email))
  }

  // ---- batches ----

  function Batches(ids: seq<ContactId>): seq<seq<ContactId>> {
    if |ids| == 0 then []
    else if |ids| <= BATCH_SIZE then [ids]
    else [ids[..BATCH_SIZE]] + Batches(ids[BATCH_SIZE..])
  }

  function Concat<T>(xss: seq<seq<T>>): seq<T> {
    if xss == [] then [] else xss[0] + Concat(xss[1..])
  }

  /** The batches are non-empty, bounded, and together they are the id list in order. */
  lemma {:induction false} BatchesSplit(ids: seq<ContactId>)
    ensures forall b :: b in Batches(ids) ==> 0 < |b| <= BATCH_SIZE
    ensures Concat(Batches(ids)) == ids
  {
    var bs := Batches(ids);
    if |ids| > BATCH_SIZE {
      BatchesSplit(ids[BATCH_SIZE..]);
      assert bs[1..] == Batches(ids[BATCH_SIZE..]);
    } else if |ids| > 0 {
      assert bs[1..] == [] && Concat(bs) == ids + [];
    }
  }

  /** What the batched queries return, one after the other. */
  function BatchedRows(batches: seq<seq<ContactId>>, memberships: seq<MembershipRow>, statuses: set<string>)
    : seq<MembershipRow>
  {
    if batches == [] then []
    else MembershipsOf(memberships, batches[0], statuses) + BatchedRows(batches[1..], memberships, statuses)
  }

  /** The labels of one contact among fetched rows. */
  function LabelsAmong(rows: seq<MembershipRow>, id: ContactId): seq<string> {
    if rows == [] then []
    else LabelsAmong(rows[..|rows| - 1], id) +
         if rows[|rows| - 1].contact == id then [rows[|rows| - 1].typeLabel] else []
  }

  lemma {:induction false} LabelsAmongConcat(a: seq<MembershipRow>, b: seq<MembershipRow>, id: ContactId)
    ensures LabelsAmong(a + b, id) == LabelsAmong(a, id) + LabelsAmong(b, id)
  {
    if b == [] {
      assert a + b == a;
    } else {
      assert (a + b)[..|a + b| - 1] == a + b[..|b| - 1];
      LabelsAmongConcat(a, b[..|b| - 1], id);
    }
  }

  lemma {:induction false} LabelsOfOneQuery(memberships: seq<MembershipRow>, ids: seq<ContactId>, statuses: set<string>,
                                            id: ContactId)
    ensures LabelsAmong(MembershipsOf(memberships, ids, statuses), id) ==
            if id in ids then ActiveLabels(memberships, id, statuses) else []
  {
    if memberships != [] {
      var front := memberships[..|memberships| - 1];
      LabelsOfOneQuery(front, ids, statuses, id);
      var m := memberships[|memberships| - 1];
      if m.contact in ids && m.status in statuses {
        LabelsAmongConcat(MembershipsOf(front, ids, statuses), [m], id);
        assert [m][..0] == [];
        assert LabelsAmong([m], id) == [] + if m.contact == id then [m.typeLabel] else [];
      } else {
        assert MembershipsOf(memberships, ids, statuses) == MembershipsOf(front, ids, statuses);
      }
    }
  }

  /** However the ids were split, each contact gets exactly its own labels, in table order. */
  lemma {:induction false} BatchingKeepsLabels(batches: seq<seq<ContactId>>, memberships: seq<MembershipRow>,
                                               statuses: set<string>, id: ContactId)
    requires NoDup(Concat(batches))
    ensures LabelsAmong(BatchedRows(batches, memberships, statuses), id) ==
            if id in Concat(batches) then ActiveLabels(memberships, id, statuses) else []
  {
    if batches != [] {
      var rest := Concat(batches[1..]);
      var all := Concat(batches);
      assert all == batches[0] + rest;
      assert NoDup(rest) by {
        forall i, j | 0 <= i < j < |rest| ensures rest[i] != rest[j] {
          assert all[|batches[0]| + i] == rest[i] && all[|batches[0]| + j] == rest[j];
        }
      }
      forall i, j | 0 <= i < |batches[0]| && 0 <= j < |rest| ensures batches[0][i] != rest[j] {
        assert all[i] == batches[0][i] && all[|batches[0]| + j] == rest[j];
      }
      BatchingKeepsLabels(batches[1..], memberships, statuses, id);
      LabelsOfOneQuery(memberships, batches[0], statuses, id);
      LabelsAmongConcat(MembershipsOf(memberships, batches[0], statuses),
                        BatchedRows(batches[1..], memberships, statuses), id);
    }
  }

  // ---- the client ----

  /** Raises exactly when the result would not fit in the page limit, the exact multiple included. */
  method FetchContacts(contacts: seq<ContactRow>) returns (r: Result<seq<ContactRow>>)
    ensures r == if Overflows(CardedContacts(contacts)) then Err(TooManyContacts) else Ok(CardedContacts(contacts))
  {
    ghost var all := CardedContacts(contacts);
    var results, offset := [], 0;
    for n := 0 to MAX_PAGES
      invariant offset == n * PAGE_SIZE && offset <= |all|
      invariant results == all[..offset]
    {
      var page := Page(CardedContacts(contacts), PAGE_SIZE, offset);
      PageExtends(all, PAGE_SIZE, n);
      results := results + page;
      if |page| < PAGE_SIZE {
        return Ok(results);
      }
      offset := offset + PAGE_SIZE;
    }
    return Err(TooManyContacts);
  }

  method FetchMembershipsForBatch(memberships: seq<MembershipRow>, batch: seq<ContactId>, statuses: set<string>)
    returns (r: Result<seq<MembershipRow>>)
    ensures r == if Overflows(MembershipsOf(memberships, batch, statuses)) then Err(TooManyMemberships)
                 else Ok(MembershipsOf(memberships, batch, statuses))
  {
    ghost var all := MembershipsOf(memberships, batch, statuses);
    var results, offset := [], 0;
    for n := 0 to MAX_PAGES
      invariant offset == n * PAGE_SIZE && offset <= |all|
      invariant results == all[..offset]
    {
      var page := Page(MembershipsOf(memberships, batch, statuses), PAGE_SIZE, offset);
      PageExtends(all, PAGE_SIZE, n);
      results := results + page;
      if |page| < PAGE_SIZE {
        return Ok(results);
      }
      offset := offset + PAGE_SIZE;
    }
    return Err(TooManyMemberships);
  }

  ghost predicate SomeBatchOverflows(batches: seq<seq<ContactId>>, memberships: seq<MembershipRow>,
                                     statuses: set<string>) {
    batches != [] &&
    (Overflows(MembershipsOf(memberships, batches[0], statuses)) ||
     SomeBatchOverflows(batches[1..], memberships, statuses))
  }

  /** The batches from `start` on. */
  function BatchesFrom(ids: seq<ContactId>, start: nat): seq<seq<ContactId>> {
    if start >= |ids| then [] else Batches(ids[start..])
  }

  function BatchAt(ids: seq<ContactId>, start: nat): seq<ContactId>
    requires start < |ids|
  {
    ids[start..if start + BATCH_SIZE < |ids| then start + BATCH_SIZE else |ids|]
  }

  lemma BatchesStep(ids: seq<ContactId>, start: nat)
    requires start < |ids|
    ensures BatchesFrom(ids, start) == [BatchAt(ids, start)] + BatchesFrom(ids, start + BATCH_SIZE)
  {
    var here := ids[start..];
    if |here| > BATCH_SIZE {
      assert here[..BATCH_SIZE] == BatchAt(ids, start);
      assert here[BATCH_SIZE..] == ids[start + BATCH_SIZE..];
    } else {
      assert here == BatchAt(ids, start);
    }
  }

  /** Handling the batch at `start`, then the rest. */
  lemma OneBatch(ids: seq<ContactId>, start: nat, memberships: seq<MembershipRow>, statuses: set<string>)
    requires start < |ids|
    ensures var here, rest := BatchesFrom(ids, start), BatchesFrom(ids, start + BATCH_SIZE);
            var page := MembershipsOf(memberships, BatchAt(ids, start), statuses);
      && BatchedRows(here, memberships, statuses) == page + BatchedRows(rest, memberships, statuses)
      && (SomeBatchOverflows(here, memberships, statuses) <==>
            Overflows(page) || SomeBatchOverflows(rest, memberships, statuses))
  {
    BatchesStep(ids, start);
    var here, rest := BatchesFrom(ids, start), BatchesFrom(ids, start + BATCH_SIZE);
    assert here[1..] == rest;
  }

  method FetchMemberships(memberships: seq<MembershipRow>, ids: seq<ContactId>, statuses: set<string>)
    returns (r: Result<seq<MembershipRow>>)
    ensures r == if SomeBatchOverflows(Batches(ids), memberships, statuses) then Err(TooManyMemberships)
                 else Ok(BatchedRows(Batches(ids), memberships, statuses))
  {
    if ids == [] {
      return Ok([]);
    }
    var results, start := [], 0;
    assert ids[0..] == ids;
    ghost var rows, bad := BatchedRows(Batches(ids), memberships, statuses),
                           SomeBatchOverflows(Batches(ids), memberships, statuses);
    while start < |ids|
      invariant results + BatchedRows(BatchesFrom(ids, start), memberships, statuses) == rows
      invariant SomeBatchOverflows(BatchesFrom(ids, start), memberships, statuses) <==> bad
      decreases |ids| - start
    {
      var batch := BatchAt(ids, start);
      OneBatch(ids, start, memberships, statuses);
      var page := FetchMembershipsForBatch(memberships, batch, statuses);
      if page.Err? {
        return Err(TooManyMemberships);
      }
      results := results + page.value;
      start := start + BATCH_SIZE;
    }
    assert results + [] == results;
    return Ok(results);
  }

  /** Every carded contact has a card number that can be read. */
  ghost predicate CardsParse(contacts: seq<ContactRow>) {
    forall c :: c in CardedContacts(contacts) ==> CoerceCard(c.card).Some?
  }

  function Ids(contacts: seq<ContactRow>): seq<ContactId> {
    seq(|contacts|, i requires 0 <= i < |contacts| => contacts[i].id)
  }

  function LabelsFor(byContact: map<ContactId, seq<string>>, id: ContactId): seq<string> {
    if id in byContact then byContact[id] else []
  }

  /** The hash side of the join: labels grouped by contact, in the order fetched. */
  method GroupTypes(rows: seq<MembershipRow>) returns (byContact: map<ContactId, seq<string>>)
    ensures forall id :: LabelsFor(byContact, id) == LabelsAmong(rows, id)
  {
    byContact := map[];
    for i := 0 to |rows|
      invariant forall id :: LabelsFor(byContact, id) == LabelsAmong(rows[..i], id)
    {
      var m := rows[i];
      assert rows[..i + 1][..i] == rows[..i];
      byContact := byContact[m.contact := LabelsFor(byContact, m.contact) + [m.typeLabel]];
    }
    assert rows[..|rows|] == rows;
  }

  /** The probe side of the join: one member per contact, in order. */
  method BuildMembers(rows: seq<ContactRow>, byContact: map<ContactId, seq<string>>)
    returns (r: Result<seq<CiviMember>>)
    ensures r.Ok? <==> forall c :: c in rows ==> CoerceCard(c.card).Some?
    ensures r.Err? ==> r.error == UnparseableCard
    ensures r.Ok? ==> |r.value| == |rows| && forall i :: 0 <= i < |rows| ==>
              CoerceCard(rows[i].card).Some? &&
              r.value[i] == CiviMember(rows[i].id, rows[i].name, CoerceCard(rows[i].card).value,
                                       LabelsFor(byContact, rows[i].id), CleanEmail(rows[i].email))
  {
    var members: seq<CiviMember> := [];
    for i := 0 to |rows|
      invariant |members| == i
      invariant forall j :: 0 <= j < i ==>
        CoerceCard(rows[j].card).Some? &&
        members[j] == CiviMember(rows[j].id, rows[j].name, CoerceCard(rows[j].card).value,
                                 LabelsFor(byContact, rows[j].id), CleanEmail(rows[j].email))
    {
      var c := rows[i];
      var card := CoerceCard(c.card);
      if card.None? {
        return Err(UnparseableCard);
      }
      members := members + [CiviMember(c.id, c.name, card.value, LabelsFor(byContact, c.id), CleanEmail(c.email))];
    }
    return Ok(members);
  }

  /**
  The join equals the nested loop over the remote tables, for any tables with distinct
  contact ids; it fails exactly when a query overflows or a card number cannot be read.
  */
  method FetchActive(contacts: seq<ContactRow>, memberships: seq<MembershipRow>, statuses: set<string>)
    returns (r: Result<seq<CiviMember>>)
    ensures r.Ok? <==>
              && !Overflows(CardedContacts(contacts))
              && !SomeBatchOverflows(Batches(Ids(CardedContacts(contacts))), memberships, statuses)
              && CardsParse(contacts)
    ensures r.Ok? ==> |r.value| == |CardedContacts(contacts)|
    ensures r.Ok? && NoDup(Ids(CardedContacts(contacts))) ==>
              && forall i :: 0 <= i < |r.value| ==>
                   r.value[i] == NestedLoopMember(CardedContacts(contacts)[i], memberships, statuses)
    ensures r.Err? && r.error == TooManyContacts <==> Overflows(CardedContacts(contacts))
  {
    var fetched := FetchContacts(contacts);
    if fetched.Err? {
      return Err(fetched.error);
    }
    var rows := fetched.value;
    if rows == [] {
      return Ok([]);
    }
    var ids := Ids(rows);
    var joined := FetchMemberships(memberships, ids, statuses);
    if joined.Err? {
      return Err(joined.error);
    }
    var byContact := GroupTypes(joined.value);
    BatchesSplit(ids);
    forall i | 0 <= i < |rows| && NoDup(ids)
      ensures LabelsFor(byContact, rows[i].id) ==
              ActiveLabels(memberships, rows[i].id, statuses)
    {
      assert ids[i] == rows[i].id && Concat(Batches(ids)) == ids;
      BatchingKeepsLabels(Batches(ids), memberships, statuses, rows[i].id);
    }
    r := BuildMembers(rows, byContact);
  }
}
