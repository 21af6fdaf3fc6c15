/**
Tier mapping: from a member's membership types to one access policy, and the
validation of the rules that does the mapping.
*/
module TierMapping {
  import opened Models

  type Rules = map<string, TierRule>
  datatype Match = Match(name: string, rule: TierRule)

  // ---- the order in which matched rules are preferred ----

  /** Code-point order on strings. */
  predicate LexLeq(a: string, b: string) {
    if a == "" then true
    else if b == "" then false
    else if a[0] != b[0] then a[0] < b[0]
    else LexLeq(a[1..], b[1..])
  }

  /** Higher rank first, then the lesser name. */
  predicate Preferred(a: Match, b: Match) {
    a.rule.rank > b.rule.rank || (a.rule.rank == b.rule.rank && LexLeq(a.name, b.name))
  }

  lemma {:induction false} LexLeqTotal(a: string, b: string)
    ensures LexLeq(a, b) || LexLeq(b, a)
    ensures LexLeq(a, b) && LexLeq(b, a) ==> a == b
  {
    if a != "" && b != "" && a[0] == b[0] {
      LexLeqTotal(a[1..], b[1..]);
      assert a == [a[0]] + a[1..] && b == [b[0]] + b[1..];
    }
  }

  lemma {:induction false} LexLeqTransitive(a: string, b: string, c: string)
    requires LexLeq(a, b) && LexLeq(b, c)
    ensures LexLeq(a, c)
  {
    if a != "" && b != "" && c != "" && a[0] == b[0] == c[0] {
      LexLeqTransitive(a[1..], b[1..], c[1..]);
    }
  }

  function Insert(x: Match, sorted: seq<Match>): seq<Match> {
    if sorted == [] || Preferred(x, sorted[0]) then [x] + sorted
    else [sorted[0]] + Insert(x, sorted[1..])
  }

  /** The matches in order of preference. */
  function Sort(xs: seq<Match>): seq<Match> {
    if xs == [] then [] else Insert(xs[0], Sort(xs[1..]))
  }

  ghost predicate Best(best: Match, xs: seq<Match>) {
    best in xs && forall x :: x in xs ==> Preferred(best, x)
  }

  lemma {:induction false} InsertKeepsBestFirst(x: Match, sorted: seq<Match>)
    requires sorted != [] ==> Best(sorted[0], sorted)
    ensures var r := Insert(x, sorted);
            r != [] && Best(r[0], [x] + sorted) && multiset(r) == multiset([x] + sorted)
  {
    LexLeqTotal(x.name, x.name);
    if sorted != [] {
      var y := sorted[0];
      LexLeqTotal(x.name, y.name);
      assert sorted == [y] + sorted[1..];
      if Preferred(x, y) {
        forall z | z in sorted ensures Preferred(x, z) {
          if x.rule.rank == y.rule.rank == z.rule.rank {
            LexLeqTransitive(x.name, y.name, z.name);
          }
        }
      } else {
        InsertIsPermutation(x, sorted[1..]);
      }
    }
  }

  lemma {:induction false} InsertIsPermutation(x: Match, sorted: seq<Match>)
    ensures multiset(Insert(x, sorted)) == multiset([x] + sorted)
  {
    if sorted != [] && !Preferred(x, sorted[0]) {
      InsertIsPermutation(x, sorted[1..]);
      assert sorted == [sorted[0]] + sorted[1..];
    }
  }

  lemma {:induction false} SortPutsBestFirst(xs: seq<Match>)
    requires xs != []
    ensures Sort(xs) != [] && Best(Sort(xs)[0], xs) && multiset(Sort(xs)) == multiset(xs)
  {
    assert xs == [xs[0]] + xs[1..];
    if |xs| == 1 {
      InsertKeepsBestFirst(xs[0], []);
    } else {
      SortPutsBestFirst(xs[1..]);
      var tail := Sort(xs[1..]);
      forall x | x in tail ensures Preferred(tail[0], x) {
        assert x in multiset(tail);
        assert x in multiset(xs[1..]);
      }
      InsertKeepsBestFirst(xs[0], tail);
      SamePreference(xs[0], tail, xs[1..]);
    }
  }

  lemma SamePreference(x: Match, a: seq<Match>, b: seq<Match>)
    requires multiset(a) == multiset(b)
    ensures multiset([x] + a) == multiset([x] + b)
    ensures forall y :: Best(y, [x] + a) ==> Best(y, [x] + b)
  {
    assert multiset([x] + a) == multiset([x] + b);
    forall y | Best(y, [x] + a) ensures Best(y, [x] + b) {
      assert y in multiset([x] + a);
      forall z | z in [x] + b ensures Preferred(y, z) {
        assert z in multiset([x] + b);
      }
    }
  }

  // ---- resolution ----

  /** `name` is the membership type that decides: no other type of the member is preferred to it. */
  ghost predicate Decides(name: string, types: seq<string>, rules: Rules)
    requires forall t :: t in types ==> t in rules
  {
    name in types &&
    forall t :: t in types ==> Preferred(Match(name, rules[name]), Match(t, rules[t]))
  }

  /** What resolving a member must produce; it depends on the set of membership types only. */
  ghost predicate Resolves(member: CiviMember, rules: Rules, r: ResolvedMember) {
    && r.contact == member.contact && r.name == member.name
    && r.card == member.card && r.email == member.email
    && if member.types == [] then
         r.resolution == NoAccess && r.policy == None
       else if exists t :: t in member.types && t !in rules then
         r.resolution == Unmapped && r.policy == None
       else
         exists t :: Decides(t, member.types, rules) &&
                     r.resolution == rules[t].resolution && r.policy == rules[t].policy
  }

  method Resolve(member: CiviMember, rules: Rules) returns (r: ResolvedMember)
    ensures Resolves(member, rules, r)
  {
    if member.types == [] {
      return ResolvedMember(member.contact, member.name, member.card, None, NoAccess, member.email);
    }
    var matched: seq<Match> := [];
    for i := 0 to |member.types|
      invariant |matched| == i
      invariant forall j :: 0 <= j < i ==> member.types[j] in rules
      invariant forall j :: 0 <= j < i ==> matched[j] == Match(member.types[j], rules[member.types[j]])
    {
      var name := member.types[i];
      if name !in rules {
        return ResolvedMember(member.contact, member.name, member.card, None, Unmapped, member.email);
      }
      matched := matched + [Match(name, rules[name])];
    }
    SortPutsBestFirst(matched);
    var sorted := Sort(matched);
    var chosen := sorted[0].rule;
    assert Decides(sorted[0].name, member.types, rules) by {
      forall t | t in member.types ensures Preferred(sorted[0], Match(t, rules[t])) {
        assert Match(t, rules[t]) in matched;
      }
    }
    r := ResolvedMember(member.contact, member.name, member.card,
                        chosen.policy, chosen.resolution, member.email);
  }

  /** At most one type decides, and it is the same for every list with the same types. */
  lemma DecidesIsUnique(a: string, b: string, xs: seq<string>, ys: seq<string>, rules: Rules)
    requires forall t :: t in xs ==> t in rules
    requires forall t :: t in xs <==> t in ys
    requires Decides(a, xs, rules) && Decides(b, ys, rules)
    ensures a == b
  {
    LexLeqTotal(a, b);
    assert Preferred(Match(a, rules[a]), Match(b, rules[b]));
    assert Preferred(Match(b, rules[b]), Match(a, rules[a]));
  }

  /** Reordering or repeating membership types never changes the resolution. */
  lemma ResolutionIgnoresOrder(m: CiviMember, types: seq<string>, rules: Rules,
                               r: ResolvedMember, r': ResolvedMember)
    requires forall t :: t in m.types <==> t in types
    requires Resolves(m, rules, r)
    requires Resolves(m.(types := types), rules, r')
    ensures r == r'
  {
    if m.types == [] {
      assert forall t :: t in types ==> t in m.types;
      assert types == [];
    } else {
      assert m.types[0] in types;
      if forall t :: t in m.types ==> t in rules {
        var a :| Decides(a, m.types, rules) && r.resolution == rules[a].resolution && r.policy == rules[a].policy;
        var b :| Decides(b, types, rules) && r'.resolution == rules[b].resolution && r'.policy == rules[b].policy;
        DecidesIsUnique(a, b, m.types, types, rules);
      }
    }
  }

  // ---- validated rules ----

  datatype RawPolicy = Text(value: string) | NotText
  datatype RawRule =
    | NotATable
    | Table(resolution: Option<string>, policy: Option<RawPolicy>, rank: Option<int>)

  datatype Issue = BadTable | BadResolution | PolicyMissing | PolicyEmpty | PolicyForbidden | BadRank

  /** The labels the configuration uses for resolutions. */
  function ParseResolution(text: string): Option<Resolution> {
    if text == "tier" then Some(Tier)
    else if text == "none" then Some(NoAccess)
    else if text == "day-pass" then Some(DayPass)
    else None
  }

  /** Resolutions and policies agree: exactly the tier rules carry a (non-empty) policy. */
  predicate RuleIsSound(rule: TierRule) {
    && rule.resolution != Unmapped
    && (rule.resolution == Tier <==> rule.policy.Some?)
    && (rule.policy.Some? ==> rule.policy.value != "")
  }

  /** What the configuration text asks for when it is acceptable. */
  ghost predicate Denotes(raw: RawRule, rule: TierRule) {
    && raw.Table? && RuleIsSound(rule)
    && raw.resolution.Some? && ParseResolution(raw.resolution.value) == Some(rule.resolution)
    && raw.rank == Some(rule.rank)
    && raw.policy == match rule.policy { case None => None case Some(p) => Some(Text(p)) }
  }

  ghost predicate Acceptable(raw: RawRule) {
    exists rule :: Denotes(raw, rule)
  }

  method ValidateTierMapping(data: seq<(string, RawRule)>)
    returns (rules: Rules, issues: seq<(string, Issue)>)
    requires forall i, j :: 0 <= i < j < |data| ==> data[i].0 != data[j].0
    ensures forall i :: 0 <= i < |data| ==>
              (data[i].0 in rules <==> Acceptable(data[i].1))
    ensures forall i :: 0 <= i < |data| && data[i].0 in rules ==> Denotes(data[i].1, rules[data[i].0])
    ensures forall name :: name in rules ==> RuleIsSound(rules[name])
    ensures issues == [] <==> forall i :: 0 <= i < |data| ==> Acceptable(data[i].1)
  {
    rules, issues := map[], [];
    for n := 0 to |data|
      invariant forall name :: name in rules ==> RuleIsSound(rules[name])
      invariant forall name :: name in rules ==> exists i :: 0 <= i < n && data[i].0 == name
      invariant forall i :: 0 <= i < n ==> (data[i].0 in rules <==> Acceptable(data[i].1))
      invariant forall i :: 0 <= i < n && data[i].0 in rules ==> Denotes(data[i].1, rules[data[i].0])
      invariant issues == [] <==> forall i :: 0 <= i < n ==> Acceptable(data[i].1)
    {
      var (name, raw) := data[n];
      if raw.NotATable? {
        issues := issues + [(name, BadTable)];
        continue;
      }
      if raw.resolution.None? || ParseResolution(raw.resolution.value).None? {
        issues := issues + [(name, BadResolution)];
        continue;
      }
      var resolution := ParseResolution(raw.resolution.value).value;
      var policy: Option<string> := None;
      if resolution == Tier {
        if raw.policy.None? {
          issues := issues + [(name, PolicyMissing)];
          continue;
        }
        if raw.policy.value.NotText? || raw.policy.value.value == "" {
          issues := issues + [(name, PolicyEmpty)];
          continue;
        }
        policy := Some(raw.policy.value.value);
      } else if raw.policy.Some? {
        issues := issues + [(name, PolicyForbidden)];
        continue;
      }
      if raw.rank.None? {
        issues := issues + [(name, BadRank)];
        continue;
      }
      var rule := TierRule(resolution, policy, raw.rank.value);
      assert Denotes(raw, rule);
      rules := rules[name := rule];
    }
  }

  /** The policies door-sync owns. */
  function ManagedPolicyIds(rules: Rules): set<string> {
    set name | name in rules && rules[name].resolution == Tier && rules[name].policy.Some?
      :: rules[name].policy.value
  }

  /** With validated rules a tier resolution always names a policy door-sync owns. */
  lemma TierPolicyIsManaged(member: CiviMember, rules: Rules, r: ResolvedMember)
    requires forall name :: name in rules ==> RuleIsSound(rules[name])
    requires Resolves(member, rules, r)
    ensures r.resolution == Tier <==> r.policy.Some?
    ensures r.policy.Some? ==> r.policy.value in ManagedPolicyIds(rules) && r.policy.value != ""
    ensures r.resolution == Unmapped <==> exists t :: t in member.types && t !in rules
  {
  }
}
