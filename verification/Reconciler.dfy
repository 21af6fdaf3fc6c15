/**
The difference between what CiviCRM wants and what UniFi has.
*/
module Reconciler {
  import opened Models
  import opened Text

  type Wanted = map<ContactId, ResolvedMember>
  type Present = map<ContactId, UnifiUser>

  function NormEmail(email: Option<string>): Option<string> {
    if email.None? || email.value == "" then None else Some(Lower(email.value))
  }

  predicate EmailDiffers(a: Option<string>, b: Option<string>) {
    NormEmail(a) != NormEmail(b)
  }

  /** Index by contact; a later entry replaces an earlier one. */
  function IndexWanted(members: seq<ResolvedMember>): Wanted {
    if members == [] then map[]
    else IndexWanted(members[..|members| - 1])[members[|members| - 1].contact := members[|members| - 1]]
  }

  function IndexPresent(users: seq<UnifiUser>): Present {
    if users == [] then map[]
    else IndexPresent(users[..|users| - 1])[users[|users| - 1].contact := users[|users| - 1]]
  }

  // ---- the decision for one contact ----

  predicate CredentialDiffers(r: ResolvedMember, u: UnifiUser) {
    u.card != r.card || u.name != r.name || EmailDiffers(r.email, u.email)
  }

  predicate WantsDoor(k: ContactId, wanted: Wanted) {
    k in wanted && wanted[k].resolution == Tier && wanted[k].policy.Some?
  }

  predicate IsActive(k: ContactId, present: Present) {
    k in present && present[k].active
  }

  predicate Adds(k: ContactId, wanted: Wanted, present: Present) {
    WantsDoor(k, wanted) && !IsActive(k, present)
  }

  predicate UpdatesCredential(k: ContactId, wanted: Wanted, present: Present) {
    WantsDoor(k, wanted) && IsActive(k, present) && CredentialDiffers(wanted[k], present[k])
  }

  predicate UpdatesPolicy(k: ContactId, wanted: Wanted, present: Present) {
    WantsDoor(k, wanted) && IsActive(k, present) && present[k].policy != wanted[k].policy
  }

  predicate Deactivates(k: ContactId, wanted: Wanted, present: Present) {
    IsActive(k, present) && (k in wanted ==> wanted[k].resolution == NoAccess)
  }

  predicate IsUnmapped(k: ContactId, wanted: Wanted) {
    k in wanted && wanted[k].resolution == Unmapped
  }

  // ---- the whole difference ----

  /** The sequence holds exactly the elements of the set, each once, in some order. */
  ghost predicate ListsSet<T(!new)>(xs: seq<T>, s: set<T>) {
    NoDup(xs) && forall x :: x in xs <==> x in s
  }

  function AddSet(ids: set<ContactId>, wanted: Wanted, present: Present): set<ResolvedMember> {
    set k | k in ids && Adds(k, wanted, present) :: wanted[k]
  }

  function CredentialSet(ids: set<ContactId>, wanted: Wanted, present: Present): set<Pair> {
    set k | k in ids && UpdatesCredential(k, wanted, present) :: Pair(wanted[k], present[k])
  }

  function PolicySet(ids: set<ContactId>, wanted: Wanted, present: Present): set<Pair> {
    set k | k in ids && UpdatesPolicy(k, wanted, present) :: Pair(wanted[k], present[k])
  }

  function DeactivateSet(ids: set<ContactId>, wanted: Wanted, present: Present): set<UnifiUser> {
    set k | k in ids && Deactivates(k, wanted, present) :: present[k]
  }

  function UnmappedSet(ids: set<ContactId>, wanted: Wanted): set<ResolvedMember> {
    set k | k in ids && IsUnmapped(k, wanted) :: wanted[k]
  }

  /**
  Each bucket lists the contacts decided for it among `ids`.
  The source walks a set of ids, so the order inside a bucket is arbitrary.
  */
  ghost predicate IsDiffOver(ids: set<ContactId>, wanted: Wanted, present: Present, d: Diff) {
    && ListsSet(d.toAdd, AddSet(ids, wanted, present))
    && ListsSet(d.toUpdateCredential, CredentialSet(ids, wanted, present))
    && ListsSet(d.toUpdatePolicy, PolicySet(ids, wanted, present))
    && ListsSet(d.toDeactivate, DeactivateSet(ids, wanted, present))
    && ListsSet(d.unmapped, UnmappedSet(ids, wanted))
  }

  ghost predicate IsDiff(members: seq<ResolvedMember>, users: seq<UnifiUser>, d: Diff) {
    var wanted, present := IndexWanted(members), IndexPresent(users);
    IsDiffOver(wanted.Keys + present.Keys, wanted, present, d)
  }

  lemma {:induction false} WantedByContact(members: seq<ResolvedMember>)
    ensures forall k :: k in IndexWanted(members) ==> IndexWanted(members)[k].contact == k
  {
    if members != [] {
      WantedByContact(members[..|members| - 1]);
    }
  }

  lemma {:induction false} PresentByContact(users: seq<UnifiUser>)
    ensures forall k :: k in IndexPresent(users) ==> IndexPresent(users)[k].contact == k
  {
    if users != [] {
      PresentByContact(users[..|users| - 1]);
    }
  }

  /** `order` is the order in which the set of ids happens to be walked: any order gives a correct difference. */
  method ComputeDiff(members: seq<ResolvedMember>, users: seq<UnifiUser>, order: seq<ContactId>) returns (d: Diff)
    requires ListsSet(order, IndexWanted(members).Keys + IndexPresent(users).Keys)
    ensures IsDiff(members, users, d)
  {
    var wanted, present := IndexWanted(members), IndexPresent(users);
    WantedByContact(members);
    PresentByContact(users);
    ghost var done: set<ContactId> := {};
    d := Diff([], [], [], [], []);
    for i := 0 to |order|
      invariant forall k :: k in done <==> k in order[..i]
      invariant IsDiffOver(done, wanted, present, d)
    {
      var k := order[i];
      assert k in order;
      ghost var before := d;
      d := Extend(k, wanted, present, d);
      ExtendIsDiff(k, done, wanted, present, before);
      done := done + {k};
    }
    assert order[..|order|] == order;
    assert forall k :: k in done <==> k in wanted.Keys + present.Keys;
    assert done == wanted.Keys + present.Keys;
  }

  /** One round of the loop: the branches of the decision table. */
  function Extend(k: ContactId, wanted: Wanted, present: Present, d: Diff): Diff
    requires k in wanted || k in present
  {
    if k !in wanted then
      if present[k].active then d.(toDeactivate := d.toDeactivate + [present[k]]) else d
    else
      var r := wanted[k];
      match r.resolution
      case Unmapped => d.(unmapped := d.unmapped + [r])
      case DayPass => d
      case NoAccess =>
        if IsActive(k, present) then d.(toDeactivate := d.toDeactivate + [present[k]]) else d
      case Tier =>
        if r.policy.None? then d
        else if !IsActive(k, present) then d.(toAdd := d.toAdd + [r])
        else
          var u := present[k];
          var d' := if CredentialDiffers(r, u)
                    then d.(toUpdateCredential := d.toUpdateCredential + [Pair(r, u)]) else d;
          if u.policy != r.policy then d'.(toUpdatePolicy := d'.toUpdatePolicy + [Pair(r, u)]) else d'
  }

  lemma ListsOneMore<T(!new)>(xs: seq<T>, s: set<T>, x: T)
    requires ListsSet(xs, s) && x !in s
    ensures ListsSet(xs + [x], s + {x})
  {
  }

  lemma AddStep(k: ContactId, done: set<ContactId>, wanted: Wanted, present: Present, xs: seq<ResolvedMember>)
    requires ListsSet(xs, AddSet(done, wanted, present)) && k !in done
    requires forall j :: j in wanted ==> wanted[j].contact == j
    requires forall j :: j in present ==> present[j].contact == j
    ensures ListsSet(if Adds(k, wanted, present) then xs + [wanted[k]] else xs, AddSet(done + {k}, wanted, present))
  {
    assert AddSet(done + {k}, wanted, present) ==
           AddSet(done, wanted, present) + if Adds(k, wanted, present) then {wanted[k]} else {};
    if Adds(k, wanted, present) {
      ListsOneMore(xs, AddSet(done, wanted, present), wanted[k]);
    }
  }

  lemma CredentialStep(k: ContactId, done: set<ContactId>, wanted: Wanted, present: Present, xs: seq<Pair>)
    requires ListsSet(xs, CredentialSet(done, wanted, present)) && k !in done
    requires forall j :: j in wanted ==> wanted[j].contact == j
    requires forall j :: j in present ==> present[j].contact == j
    ensures ListsSet(if UpdatesCredential(k, wanted, present) then xs + [Pair(wanted[k], present[k])] else xs,
                     CredentialSet(done + {k}, wanted, present))
  {
    assert CredentialSet(done + {k}, wanted, present) ==
           CredentialSet(done, wanted, present) +
           if UpdatesCredential(k, wanted, present) then {Pair(wanted[k], present[k])} else {};
    if UpdatesCredential(k, wanted, present) {
      ListsOneMore(xs, CredentialSet(done, wanted, present), Pair(wanted[k], present[k]));
    }
  }

  lemma PolicyStep(k: ContactId, done: set<ContactId>, wanted: Wanted, present: Present, xs: seq<Pair>)
    requires ListsSet(xs, PolicySet(done, wanted, present)) && k !in done
    requires forall j :: j in wanted ==> wanted[j].contact == j
    requires forall j :: j in present ==> present[j].contact == j
    ensures ListsSet(if UpdatesPolicy(k, wanted, present) then xs + [Pair(wanted[k], present[k])] else xs,
                     PolicySet(done + {k}, wanted, present))
  {
    assert PolicySet(done + {k}, wanted, present) ==
           PolicySet(done, wanted, present) +
           if UpdatesPolicy(k, wanted, present) then {Pair(wanted[k], present[k])} else {};
    if UpdatesPolicy(k, wanted, present) {
      ListsOneMore(xs, PolicySet(done, wanted, present), Pair(wanted[k], present[k]));
    }
  }

  lemma DeactivateStep(k: ContactId, done: set<ContactId>, wanted: Wanted, present: Present, xs: seq<UnifiUser>)
    requires ListsSet(xs, DeactivateSet(done, wanted, present)) && k !in done
    requires forall j :: j in wanted ==> wanted[j].contact == j
    requires forall j :: j in present ==> present[j].contact == j
    ensures ListsSet(if Deactivates(k, wanted, present) then xs + [present[k]] else xs,
                     DeactivateSet(done + {k}, wanted, present))
  {
    assert DeactivateSet(done + {k}, wanted, present) ==
           DeactivateSet(done, wanted, present) + if Deactivates(k, wanted, present) then {present[k]} else {};
    if Deactivates(k, wanted, present) {
      ListsOneMore(xs, DeactivateSet(done, wanted, present), present[k]);
    }
  }

  lemma UnmappedStep(k: ContactId, done: set<ContactId>, wanted: Wanted, xs: seq<ResolvedMember>)
    requires ListsSet(xs, UnmappedSet(done, wanted)) && k !in done
    requires forall j :: j in wanted ==> wanted[j].contact == j
    ensures ListsSet(if IsUnmapped(k, wanted) then xs + [wanted[k]] else xs, UnmappedSet(done + {k}, wanted))
  {
    assert UnmappedSet(done + {k}, wanted) ==
           UnmappedSet(done, wanted) + if IsUnmapped(k, wanted) then {wanted[k]} else {};
    if IsUnmapped(k, wanted) {
      ListsOneMore(xs, UnmappedSet(done, wanted), wanted[k]);
    }
  }

  lemma ExtendIsDiff(k: ContactId, done: set<ContactId>, wanted: Wanted, present: Present, d: Diff)
    requires IsDiffOver(done, wanted, present, d)
    requires k !in done && (k in wanted || k in present)
    requires forall j :: j in wanted ==> wanted[j].contact == j
    requires forall j :: j in present ==> present[j].contact == j
    ensures IsDiffOver(done + {k}, wanted, present, Extend(k, wanted, present, d))
  {
    AddStep(k, done, wanted, present, d.toAdd);
    CredentialStep(k, done, wanted, present, d.toUpdateCredential);
    PolicyStep(k, done, wanted, present, d.toUpdatePolicy);
    DeactivateStep(k, done, wanted, present, d.toDeactivate);
    UnmappedStep(k, done, wanted, d.unmapped);
  }

  // ---- what the difference means ----

  /** A contact is in a bucket exactly when its two records call for it, and then with those records. */
  lemma Reported(members: seq<ResolvedMember>, users: seq<UnifiUser>, d: Diff)
    requires IsDiff(members, users, d)
    ensures var wanted, present := IndexWanted(members), IndexPresent(users);
      && (forall r :: r in d.toAdd <==> Adds(r.contact, wanted, present) && r == wanted[r.contact])
      && (forall k :: Adds(k, wanted, present) ==> wanted[k] in d.toAdd)
      && (forall p :: p in d.toUpdateCredential <==>
            UpdatesCredential(p.member.contact, wanted, present) &&
            p == Pair(wanted[p.member.contact], present[p.member.contact]))
      && (forall k :: UpdatesCredential(k, wanted, present) ==> Pair(wanted[k], present[k]) in d.toUpdateCredential)
      && (forall p :: p in d.toUpdatePolicy <==>
            UpdatesPolicy(p.member.contact, wanted, present) &&
            p == Pair(wanted[p.member.contact], present[p.member.contact]))
      && (forall k :: UpdatesPolicy(k, wanted, present) ==> Pair(wanted[k], present[k]) in d.toUpdatePolicy)
      && (forall u :: u in d.toDeactivate <==> Deactivates(u.contact, wanted, present) && u == present[u.contact])
      && (forall k :: Deactivates(k, wanted, present) ==> present[k] in d.toDeactivate)
      && (forall r :: r in d.unmapped <==> IsUnmapped(r.contact, wanted) && r == wanted[r.contact])
      && (forall k :: IsUnmapped(k, wanted) ==> wanted[k] in d.unmapped)
  {
    WantedByContact(members);
    PresentByContact(users);
  }

  /** Every contact is added, updated, deactivated, unmapped or left alone, and only one of these. */
  lemma Classified(members: seq<ResolvedMember>, users: seq<UnifiUser>, d: Diff, k: ContactId)
    requires IsDiff(members, users, d)
    ensures
      var add := exists r :: r in d.toAdd && r.contact == k;
      var update := (exists p :: p in d.toUpdateCredential && p.member.contact == k) ||
                    (exists p :: p in d.toUpdatePolicy && p.member.contact == k);
      var deactivate := exists u :: u in d.toDeactivate && u.contact == k;
      var unmapped := exists r :: r in d.unmapped && r.contact == k;
      && !(add && (update || deactivate || unmapped))
      && !(update && (deactivate || unmapped))
      && !(deactivate && unmapped)
      && (!(add || update || deactivate || unmapped) <==>
            Untouched(k, IndexWanted(members), IndexPresent(users)))
  {
    Reported(members, users, d);
    WantedByContact(members);
    PresentByContact(users);
  }

  /** Nothing to do: the records agree, the member is a day-pass, or nobody has access anyway. */
  ghost predicate Untouched(k: ContactId, wanted: Wanted, present: Present) {
    if k !in wanted then !IsActive(k, present)
    else match wanted[k].resolution
      case Unmapped => false
      case DayPass => true
      case NoAccess => !IsActive(k, present)
      case Tier =>
        wanted[k].policy.Some? ==>
          IsActive(k, present) && !CredentialDiffers(wanted[k], present[k]) && present[k].policy == wanted[k].policy
  }

  /** Nothing to do for anyone. */
  ghost predicate InSync(wanted: Wanted, present: Present) {
    forall k :: Untouched(k, wanted, present)
  }

  lemma EmptyExactlyWhenInSync(members: seq<ResolvedMember>, users: seq<UnifiUser>, d: Diff)
    requires IsDiff(members, users, d)
    ensures d == Diff([], [], [], [], []) <==> InSync(IndexWanted(members), IndexPresent(users))
  {
    var wanted, present := IndexWanted(members), IndexPresent(users);
    if d == Diff([], [], [], [], []) {
      forall k ensures Untouched(k, wanted, present) {
        Classified(members, users, d, k);
      }
    } else {
      Reported(members, users, d);
      var r := if d.toAdd != [] then d.toAdd[0].contact
               else if d.toUpdateCredential != [] then d.toUpdateCredential[0].member.contact
               else if d.toUpdatePolicy != [] then d.toUpdatePolicy[0].member.contact
               else if d.toDeactivate != [] then d.toDeactivate[0].contact
               else d.unmapped[0].contact;
      Classified(members, users, d, r);
      assert !Untouched(r, wanted, present);
    }
  }

  // ---- the order of the two sides ----

  ghost predicate OncePerMember(members: seq<ResolvedMember>) {
    forall i, j :: 0 <= i < j < |members| ==> members[i].contact != members[j].contact
  }

  ghost predicate OncePerUser(users: seq<UnifiUser>) {
    forall i, j :: 0 <= i < j < |users| ==> users[i].contact != users[j].contact
  }

  /** With one entry per contact the index holds each entry. */
  lemma {:induction false} WantedHoldsAll(members: seq<ResolvedMember>, k: ContactId)
    requires OncePerMember(members)
    ensures k in IndexWanted(members) <==> exists r :: r in members && r.contact == k
    ensures k in IndexWanted(members) ==> IndexWanted(members)[k] in members
  {
    if members != [] {
      var front := members[..|members| - 1];
      WantedHoldsAll(front, k);
      assert members == front + [members[|members| - 1]];
    }
  }

  lemma {:induction false} PresentHoldsAll(users: seq<UnifiUser>, k: ContactId)
    requires OncePerUser(users)
    ensures k in IndexPresent(users) <==> exists u :: u in users && u.contact == k
    ensures k in IndexPresent(users) ==> IndexPresent(users)[k] in users
  {
    if users != [] {
      var front := users[..|users| - 1];
      PresentHoldsAll(front, k);
      assert users == front + [users[|users| - 1]];
    }
  }

  /** Reordering a side with one entry per contact does not change its index. */
  lemma IndexIgnoresOrder(members: seq<ResolvedMember>, members': seq<ResolvedMember>,
                          users: seq<UnifiUser>, users': seq<UnifiUser>)
    requires OncePerMember(members) && OncePerMember(members') && forall r :: r in members <==> r in members'
    requires OncePerUser(users) && OncePerUser(users') && forall u :: u in users <==> u in users'
    ensures IndexWanted(members) == IndexWanted(members') && IndexPresent(users) == IndexPresent(users')
  {
    WantedByContact(members);
    WantedByContact(members');
    PresentByContact(users);
    PresentByContact(users');
    forall k
      ensures k in IndexWanted(members) <==> k in IndexWanted(members')
      ensures k in IndexWanted(members) ==> IndexWanted(members)[k] == IndexWanted(members')[k]
    {
      WantedHoldsAll(members, k);
      WantedHoldsAll(members', k);
    }
    forall k
      ensures k in IndexPresent(users) <==> k in IndexPresent(users')
      ensures k in IndexPresent(users) ==> IndexPresent(users)[k] == IndexPresent(users')[k]
    {
      PresentHoldsAll(users, k);
      PresentHoldsAll(users', k);
    }
  }

  /** Reordering either side changes at most the order inside the buckets. */
  lemma DiffIgnoresOrder(members: seq<ResolvedMember>, users: seq<UnifiUser>,
                         members': seq<ResolvedMember>, users': seq<UnifiUser>, d: Diff, d': Diff)
    requires OncePerMember(members) && OncePerMember(members') && forall r :: r in members <==> r in members'
    requires OncePerUser(users) && OncePerUser(users') && forall u :: u in users <==> u in users'
    requires IsDiff(members, users, d) && IsDiff(members', users', d')
    ensures multiset(d.toAdd) == multiset(d'.toAdd)
    ensures multiset(d.toUpdateCredential) == multiset(d'.toUpdateCredential)
    ensures multiset(d.toUpdatePolicy) == multiset(d'.toUpdatePolicy)
    ensures multiset(d.toDeactivate) == multiset(d'.toDeactivate)
    ensures multiset(d.unmapped) == multiset(d'.unmapped)
  {
    IndexIgnoresOrder(members, members', users, users');
    SameElements(d.toAdd, d'.toAdd);
    SameElements(d.toUpdateCredential, d'.toUpdateCredential);
    SameElements(d.toUpdatePolicy, d'.toUpdatePolicy);
    SameElements(d.toDeactivate, d'.toDeactivate);
    SameElements(d.unmapped, d'.unmapped);
  }

  /** Two entries of one contact: the later one counts, so there the order matters. */
  lemma LastEntryCounts(a: ResolvedMember, b: ResolvedMember)
    requires a.contact == b.contact
    ensures IndexWanted([a, b]) == IndexWanted([b]) == map[b.contact := b]
    ensures IndexWanted([a, b]) == IndexWanted([b, a]) <==> a == b
  {
    assert [a, b][..1] == [a] && [b, a][..1] == [b] && [a][..0] == [] && [b][..0] == [];
    assert IndexWanted([a]) == map[a.contact := a] && IndexWanted([b]) == map[b.contact := b];
    assert IndexWanted([a, b]) == map[a.contact := a][b.contact := b];
    assert IndexWanted([b, a]) == map[b.contact := b][a.contact := a];
    assert map[b.contact := b][b.contact] == b && map[a.contact := a][a.contact] == a;
  }

  lemma SameElements<T(!new)>(a: seq<T>, b: seq<T>)
    requires NoDup(a) && NoDup(b) && forall x :: x in a <==> x in b
    ensures multiset(a) == multiset(b)
  {
    forall x ensures multiset(a)[x] == multiset(b)[x] {
      OccursOnce(a, x);
      OccursOnce(b, x);
    }
  }

  lemma {:induction false} OccursOnce<T(!new)>(a: seq<T>, x: T)
    requires NoDup(a)
    ensures multiset(a)[x] == if x in a then 1 else 0
  {
    if a != [] {
      var front := a[..|a| - 1];
      OccursOnce(front, x);
      assert a == front + [a[|a| - 1]];
      if x == a[|a| - 1] {
        assert x !in front;
      }
    }
  }
}
