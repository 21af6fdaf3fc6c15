/**
Every controller can be fetched from and every two sides compared, so the theorems about later fetches and
comparisons are about something.
*/
module Listings {
  import opened Models
  import opened Controller
  import opened Protocol
  import opened Reconciler
  import opened Snapshot
  import opened CardIndex
  import opened ForceBind
  import opened Cycle
  import Codec

  lemma {:induction false} SomeOrder<T(!new)>(s: set<T>) returns (xs: seq<T>)
    ensures ListsSet(xs, s)
    decreases |s|
  {
    if x :| x in s {
      var rest := SomeOrder(s - {x});
      xs := rest + [x];
      forall y ensures y in xs <==> y in s {
        assert y in xs <==> y in rest || y == x;
      }
    } else {
      xs := [];
    }
  }

  function TokensOf(c: State, u: UserId): set<Token> {
    set t | t in c.bound && c.bound[t] == u
  }

  /** A listing of some of the users, each as it is. */
  lemma {:induction false} SomeRows(c: State, managed: Option<set<string>>,
                                    us: seq<UserId>) returns (rows: seq<UserRow>)
    requires NoDup(us) && forall u :: u in us ==> u in c.users
    ensures |rows| == |us| && forall i :: 0 <= i < |us| ==> rows[i].id == us[i] && Shows(rows[i], c, managed)
  {
    if us == [] {
      rows := [];
    } else {
      var n := |us| - 1;
      assert us[n] in us;
      assert forall i :: 0 <= i < n ==> us[..n][i] in us;
      var front := SomeRows(c, managed, us[..n]);
      var tokens := SomeOrder(TokensOf(c, us[n]));
      rows := front + [UserRow(us[n], c.users[us[n]], tokens)];
    }
  }

  /** Every controller has a listing, and any one user may come last. */
  lemma SomeListing(c: State, managed: Option<set<string>>, us: seq<UserId>) returns (rows: seq<UserRow>)
    requires ListsSet(us, c.users.Keys)
    ensures Lists(rows, c, managed) && |rows| == |us| && forall i :: 0 <= i < |us| ==> rows[i].id == us[i]
  {
    rows := SomeRows(c, managed, us);
    forall u | u in c.users ensures exists i :: 0 <= i < |rows| && rows[i].id == u {
      var i :| 0 <= i < |us| && us[i] == u;
      assert rows[i].id == u;
    }
  }

  lemma SomeDiff(members: seq<ResolvedMember>, users: seq<UnifiUser>) returns (d: Diff)
    ensures IsDiff(members, users, d)
  {
    var wanted, present := IndexWanted(members), IndexPresent(users);
    var ids := wanted.Keys + present.Keys;
    var a := SomeOrder(AddSet(ids, wanted, present));
    var b := SomeOrder(CredentialSet(ids, wanted, present));
    var p := SomeOrder(PolicySet(ids, wanted, present));
    var e := SomeOrder(DeactivateSet(ids, wanted, present));
    var u := SomeOrder(UnmappedSet(ids, wanted));
    d := Diff(a, b, p, e, u);
  }

  /** The session a fetch of these rows leaves. */
  ghost function SessionAfter(c: State, rows: seq<UserRow>): Session {
    var cards := HasManagedCards(rows);
    Session(c, [],
            Cache(IndexUserIds(rows), IndexCardLists(rows), if cards then Some(CardTokens(c)) else None,
                  if cards then CardNumbers(c) else map[], IndexHolders(rows)), [])
  }

  /** From any controller a next round can be compared. */
  lemma SomeRound(c: State, f: Faults, cfg: Config, members: seq<ResolvedMember>) returns (y: Round)
    requires cfg.facility < Codec.FACILITY_CODES
    ensures Compared(y) && y.s.ctl == c && y.f == f && y.cfg == cfg && y.members == members
  {
    var us := SomeOrder(c.users.Keys);
    var rows := SomeListing(c, cfg.managed, us);
    var d := SomeDiff(members, Fetched(rows, c, cfg.managed));
    y := Round(f, cfg, SessionAfter(c, rows), rows, members, d);
  }
}
