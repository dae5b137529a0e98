/** Users and their eco-stats ledger (`updateEcoStats` of the user service). */
module Users {
  import opened Wrappers
  import opened Ids
  import opened Errors

  /** The five cumulative counters of a user. */
  datatype EcoStats = EcoStats(
    totalCO2Saved: int,
    totalWaterSaved: int,
    totalItemsSold: int,
    totalItemsBought: int,
    ecoPoints: int)

  /** A JSON value as it arrives in a request body. */
  datatype Json = JNull | JBool(b: bool) | JNumber(n: int) | JString(s: string) | JOther

  datatype User = User(role: string, profile: map<string, Json>, ecoStats: EcoStats)

  const StatKeys: set<string> :=
    {"totalCO2Saved", "totalWaterSaved", "totalItemsSold", "totalItemsBought", "ecoPoints"}

  /** `ecoStats[key]`; keys outside the schema read as `undefined`, modelled as None. */
  function Stat(s: EcoStats, key: string): (v: Option<int>)
    ensures v.Some? <==> key in StatKeys
  {
    match key
    case "totalCO2Saved" => Some(s.totalCO2Saved)
    case "totalWaterSaved" => Some(s.totalWaterSaved)
    case "totalItemsSold" => Some(s.totalItemsSold)
    case "totalItemsBought" => Some(s.totalItemsBought)
    case "ecoPoints" => Some(s.ecoPoints)
    case _ => None
  }

  /** The amount a delta adds to `key`: its value there, or nothing. */
  function Amount(delta: map<string, int>, key: string): int
  {
    if key in delta then delta[key] else 0
  }

  /** Each delta key that names an existing stat is added to it; others are ignored. */
  function Credit(s: EcoStats, delta: map<string, int>): (r: EcoStats)
    ensures forall key :: key in StatKeys ==> Stat(r, key).value == Stat(s, key).value + Amount(delta, key)
  {
    EcoStats(
      s.totalCO2Saved + Amount(delta, "totalCO2Saved"),
      s.totalWaterSaved + Amount(delta, "totalWaterSaved"),
      s.totalItemsSold + Amount(delta, "totalItemsSold"),
      s.totalItemsBought + Amount(delta, "totalItemsBought"),
      s.ecoPoints + Amount(delta, "ecoPoints"))
  }

  /** Two stats records that agree on every key are equal. */
  lemma StatsExtensional(a: EcoStats, b: EcoStats)
    requires forall key :: key in StatKeys ==> Stat(a, key) == Stat(b, key)
    ensures a == b
  {
    assert Stat(a, "totalCO2Saved") == Stat(b, "totalCO2Saved");
    assert Stat(a, "totalWaterSaved") == Stat(b, "totalWaterSaved");
    assert Stat(a, "totalItemsSold") == Stat(b, "totalItemsSold");
    assert Stat(a, "totalItemsBought") == Stat(b, "totalItemsBought");
    assert Stat(a, "ecoPoints") == Stat(b, "ecoPoints");
  }

  /** Keys the stats schema lacks are ignored and never fail the credit. */
  lemma CreditIgnoresUnknownKeys(s: EcoStats, delta: map<string, int>)
    ensures Credit(s, delta) == Credit(s, map key | key in delta && key in StatKeys :: delta[key])
  {
    var known := map key | key in delta && key in StatKeys :: delta[key];
    forall key | key in StatKeys
      ensures Stat(Credit(s, delta), key) == Stat(Credit(s, known), key)
    {
      assert Amount(delta, key) == Amount(known, key);
    }
    StatsExtensional(Credit(s, delta), Credit(s, known));
  }

  /** Pointwise sum of two deltas. */
  function AddDeltas(d1: map<string, int>, d2: map<string, int>): (d: map<string, int>)
    ensures forall key :: Amount(d, key) == Amount(d1, key) + Amount(d2, key)
  {
    map key | key in d1.Keys + d2.Keys :: Amount(d1, key) + Amount(d2, key)
  }

  /** Two successive credits equal one credit of the summed delta. */
  lemma CreditTwice(s: EcoStats, d1: map<string, int>, d2: map<string, int>)
    ensures Credit(Credit(s, d1), d2) == Credit(s, AddDeltas(d1, d2))
  {
    forall key | key in StatKeys
      ensures Stat(Credit(Credit(s, d1), d2), key) == Stat(Credit(s, AddDeltas(d1, d2)), key)
    {
    }
    StatsExtensional(Credit(Credit(s, d1), d2), Credit(s, AddDeltas(d1, d2)));
  }

  /** With non-negative amounts no counter decreases. */
  lemma CreditMonotone(s: EcoStats, delta: map<string, int>)
    requires forall key :: key in delta ==> delta[key] >= 0
    ensures forall key :: key in StatKeys ==> Stat(s, key).value <= Stat(Credit(s, delta), key).value
  {
    forall key | key in StatKeys
      ensures Stat(s, key).value <= Stat(Credit(s, delta), key).value
    {
      assert Amount(delta, key) >= 0;
    }
  }

  /** `updateEcoStats`: fails for an unknown user; otherwise credits that user only. */
  function UpdateEcoStats(users: map<UserId, User>, id: UserId, delta: map<string, int>)
    : (r: Result<map<UserId, User>, ServiceError>)
    ensures r.Failure? <==> id !in users
    ensures r.Failure? ==> r.error == UserNotFound
    ensures r.Success? ==> r.value.Keys == users.Keys
    ensures r.Success? ==> r.value[id].ecoStats == Credit(users[id].ecoStats, delta)
    ensures r.Success? ==> r.value[id].profile == users[id].profile && r.value[id].role == users[id].role
    ensures r.Success? ==> forall other :: other in users && other != id ==> r.value[other] == users[other]
  {
    if id !in users then Failure(UserNotFound)
    else Success(users[id := users[id].(ecoStats := Credit(users[id].ecoStats, delta))])
  }
}
