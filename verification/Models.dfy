/**
The values that flow between the layers of door-sync.
*/
module Models {

  datatype Option<+T> = None | Some(value: T)

  type ContactId = int
  type CardId = int

  /** What tier mapping decided for a member. */
  datatype Resolution = Tier | NoAccess | DayPass | Unmapped

  datatype CiviMember = CiviMember(
    contact: ContactId,
    name: string,
    card: Option<CardId>,
    types: seq<string>,
    email: Option<string>)

  datatype ResolvedMember = ResolvedMember(
    contact: ContactId,
    name: string,
    card: Option<CardId>,
    policy: Option<string>,
    resolution: Resolution,
    email: Option<string>)

  datatype UnifiUser = UnifiUser(
    contact: ContactId,
    name: string,
    card: Option<CardId>,
    active: bool,
    policy: Option<string>,
    email: Option<string>)

  datatype Pair = Pair(member: ResolvedMember, user: UnifiUser)

  datatype Diff = Diff(
    toAdd: seq<ResolvedMember>,
    toUpdateCredential: seq<Pair>,
    toUpdatePolicy: seq<Pair>,
    toDeactivate: seq<UnifiUser>,
    unmapped: seq<ResolvedMember>)

  datatype TierRule = TierRule(resolution: Resolution, policy: Option<string>, rank: int)

  /** Percentages are exact rationals; `baselineFloor` switches the percentage guards on. */
  datatype Thresholds = Thresholds(
    deactivatePct: real,
    addPct: real,
    policyPct: real,
    baselineFloor: nat)

  /** Look a key up in a dictionary. */
  function Lookup<K, V>(m: map<K, V>, k: K): Option<V> {
    if k in m then Some(m[k]) else None
  }

  /** No element occurs twice. */
  ghost predicate NoDup<T(!new)>(xs: seq<T>) {
    forall i, j :: 0 <= i < j < |xs| ==> xs[i] != xs[j]
  }
}
