/** Choosing the leader of a slot: the positive stakeholders ranked by stake and then id, the first hundred of them, and a
    hash that picks one. The stakeholders sit in an unordered map, so what matters is that the order they are visited in
    does not. */
module LeaderSelection {
  import opened Numbers
  import opened Outcomes
  import opened ChainTypes
  import opened Ouroboros

  const MAX_LEADER_POOL_SIZE := 100

  datatype Stakeholder = Stakeholder(id: Id, stake: u64)

  type Stakes = map<Id, u64>

  /** The ranking: more stake first, then the smaller id. */
  predicate Before(a: Stakeholder, b: Stakeholder) {
    a.stake > b.stake || (a.stake == b.stake && a.id < b.id)
  }

  // ----- the stakeholders -----

  /** Entering the list into the map; a later entry of the same id wins. */
  function Registered(holders: seq<Stakeholder>): Stakes {
    if holders == [] then map[]
    else Registered(holders[..|holders| - 1])[holders[|holders| - 1].id := holders[|holders| - 1].stake]
  }

  predicate DistinctIds(holders: seq<Stakeholder>) {
    forall i, j | 0 <= i < j < |holders| :: holders[i].id != holders[j].id
  }

  lemma {:induction false} RegisteredMeaning(holders: seq<Stakeholder>)
    requires DistinctIds(holders)
    ensures forall h | h in holders :: h.id in Registered(holders) && Registered(holders)[h.id] == h.stake
    ensures forall id | id in Registered(holders) :: Stakeholder(id, Registered(holders)[id]) in holders
  {
    if holders != [] {
      var n := |holders| - 1;
      RegisteredMeaning(holders[..n]);
      assert holders == holders[..n] + [holders[n]];
    }
  }

  /** The same stakeholders in any order give the same map. */
  lemma OrderIrrelevant(a: seq<Stakeholder>, b: seq<Stakeholder>)
    requires DistinctIds(a) && DistinctIds(b) && forall h :: h in a <==> h in b
    ensures Registered(a) == Registered(b)
  {
    RegisteredMeaning(a);
    RegisteredMeaning(b);
  }

  method SetStakeholders(c: Consensus, holders: seq<Stakeholder>, epoch: nat) returns (next: Consensus)
    ensures next == c.(stakes := Registered(holders), lastUpdateEpoch := Some(epoch))
  {
    var stakes: Stakes := map[];
    var i := 0;
    while i < |holders|
      invariant i <= |holders| && stakes == Registered(holders[..i])
    {
      assert holders[..i + 1][..i] == holders[..i];
      stakes := stakes[holders[i].id := holders[i].stake];
      i := i + 1;
    }
    assert holders[..|holders|] == holders;
    next := c.(stakes := stakes, lastUpdateEpoch := Some(epoch));
  }

  // ----- the pool -----

  function Positive(stakes: Stakes): set<Id> {
    set id | id in stakes && stakes[id] > 0
  }

  predicate Ranked(stakes: Stakes, pool: seq<Id>)
    requires forall i | 0 <= i < |pool| :: pool[i] in stakes
  {
    forall i, j | 0 <= i < j < |pool| ::
      Before(Stakeholder(pool[i], stakes[pool[i]]), Stakeholder(pool[j], stakes[pool[j]]))
  }

  /** The pool: as many positive stakeholders as there are, at most a hundred, in the order of the ranking, and none left
      out that ranks before one of them. */
  ghost predicate IsPool(stakes: Stakes, pool: seq<Id>) {
    && |pool| == Min(MAX_LEADER_POOL_SIZE, |Positive(stakes)|)
    && (forall i | 0 <= i < |pool| :: pool[i] in Positive(stakes))
    && Ranked(stakes, pool)
    && (forall id, i | id in Positive(stakes) && id !in pool && 0 <= i < |pool| ::
          Before(Stakeholder(pool[i], stakes[pool[i]]), Stakeholder(id, stakes[id])))
  }

  lemma PoolsAgreeAt(stakes: Stakes, p: seq<Id>, q: seq<Id>, k: nat)
    requires IsPool(stakes, p) && IsPool(stakes, q) && k < |p| == |q| && p[..k] == q[..k]
    ensures !Before(Stakeholder(p[k], stakes[p[k]]), Stakeholder(q[k], stakes[q[k]]))
  {
    forall m | 0 <= m < k ensures q[m] != p[k] {
      assert p[m] == p[..k][m] == q[..k][m] == q[m];
      assert Before(Stakeholder(p[m], stakes[p[m]]), Stakeholder(p[k], stakes[p[k]]));
    }
    if p[k] in q {
      var m :| 0 <= m < |q| && q[m] == p[k];
      if m > k {
        assert Before(Stakeholder(q[k], stakes[q[k]]), Stakeholder(q[m], stakes[q[m]]));
      }
    } else {
      assert Before(Stakeholder(q[k], stakes[q[k]]), Stakeholder(p[k], stakes[p[k]]));
    }
  }

  lemma {:induction false} PoolsAgreeUpTo(stakes: Stakes, p: seq<Id>, q: seq<Id>, k: nat)
    requires IsPool(stakes, p) && IsPool(stakes, q) && k <= |p| == |q|
    ensures p[..k] == q[..k]
  {
    hide IsPool;
    if k > 0 {
      PoolsAgreeUpTo(stakes, p, q, k - 1);
      assert p[k - 1] in stakes && q[k - 1] in stakes by { PoolKnown(stakes, p, k - 1); PoolKnown(stakes, q, k - 1); }
      PoolsAgreeAt(stakes, p, q, k - 1);
      PoolsAgreeAt(stakes, q, p, k - 1);
      assert p[..k] == p[..k - 1] + [p[k - 1]] && q[..k] == q[..k - 1] + [q[k - 1]];
    }
  }

  lemma PoolKnown(stakes: Stakes, p: seq<Id>, k: nat)
    requires IsPool(stakes, p) && k < |p|
    ensures p[k] in stakes && stakes[p[k]] > 0
  {
    assert p[k] in Positive(stakes);
  }

  /** There is only one pool, whatever order the stakeholders are visited in. */
  lemma PoolUnique(stakes: Stakes, p: seq<Id>, q: seq<Id>)
    requires IsPool(stakes, p) && IsPool(stakes, q)
    ensures p == q
  {
    PoolsAgreeUpTo(stakes, p, q, |p|);
    assert p[..|p|] == p && q[..|q|] == q;
  }

  // ----- sorting and selecting -----

  function InsertRanked(h: Stakeholder, sorted: seq<Stakeholder>): (r: seq<Stakeholder>)
    ensures multiset(r) == multiset(sorted) + multiset{h}
  {
    if sorted == [] then [h]
    else if Before(h, sorted[0]) then [h] + sorted
    else
      assert sorted == [sorted[0]] + sorted[1..];
      [sorted[0]] + InsertRanked(h, sorted[1..])
  }

  /** Stands for the library's sort by the ranking. */
  function SortRanked(holders: seq<Stakeholder>): (r: seq<Stakeholder>)
    ensures multiset(r) == multiset(holders) && |r| == |holders|
  {
    if holders == [] then []
    else
      assert holders == holders[..|holders| - 1] + [holders[|holders| - 1]];
      var r := InsertRanked(holders[|holders| - 1], SortRanked(holders[..|holders| - 1]));
      assert |multiset(r)| == |r| && |multiset(holders)| == |holders|;
      r
  }

  predicate InOrder(holders: seq<Stakeholder>) {
    forall i, j | 0 <= i < j < |holders| :: Before(holders[i], holders[j])
  }

  lemma {:induction false} InsertKeepsOrder(h: Stakeholder, sorted: seq<Stakeholder>)
    requires InOrder(sorted) && forall i | 0 <= i < |sorted| :: sorted[i].id != h.id
    ensures InOrder(InsertRanked(h, sorted))
  {
    if sorted != [] && !Before(h, sorted[0]) {
      InsertKeepsOrder(h, sorted[1..]);
      var later := InsertRanked(h, sorted[1..]);
      forall j | 0 <= j < |later| ensures Before(sorted[0], later[j]) {
        assert later[j] in multiset(later);
        if later[j] != h {
          assert later[j] in sorted[1..];
        }
      }
    }
  }

  lemma {:induction false} SortOrders(holders: seq<Stakeholder>)
    requires DistinctIds(holders)
    ensures InOrder(SortRanked(holders))
  {
    if holders != [] {
      var n := |holders| - 1;
      SortOrders(holders[..n]);
      var sorted := SortRanked(holders[..n]);
      forall i | 0 <= i < |sorted| ensures sorted[i].id != holders[n].id {
        assert sorted[i] in multiset(sorted);
        assert sorted[i] in holders[..n];
      }
      InsertKeepsOrder(holders[n], sorted);
    }
  }

  /** The list holds exactly the positive stakeholders, each once. */
  ghost predicate Lists(stakes: Stakes, holders: seq<Stakeholder>) {
    && DistinctIds(holders) && |holders| == |Positive(stakes)|
    && (forall i | 0 <= i < |holders| :: holders[i].id in Positive(stakes) && holders[i].stake == stakes[holders[i].id])
    && (forall id | id in Positive(stakes) :: Stakeholder(id, stakes[id]) in holders)
  }

  function Front(sorted: seq<Stakeholder>, n: nat): seq<Id>
    requires n <= |sorted|
  {
    seq(n, i requires 0 <= i < n => sorted[i].id)
  }

  lemma SortedLists(stakes: Stakes, holders: seq<Stakeholder>)
    requires Lists(stakes, holders)
    ensures Lists(stakes, SortRanked(holders)) && InOrder(SortRanked(holders))
  {
    var sorted := SortRanked(holders);
    SortOrders(holders);
    forall i | 0 <= i < |sorted|
      ensures sorted[i].id in Positive(stakes) && sorted[i].stake == stakes[sorted[i].id]
    {
      assert sorted[i] in multiset(sorted);
      assert sorted[i] in holders;
    }
    forall id | id in Positive(stakes) ensures Stakeholder(id, stakes[id]) in sorted {
      assert Stakeholder(id, stakes[id]) in multiset(holders);
    }
  }

  lemma FrontIsPool(stakes: Stakes, sorted: seq<Stakeholder>)
    requires Lists(stakes, sorted) && InOrder(sorted)
    ensures IsPool(stakes, Front(sorted, Min(MAX_LEADER_POOL_SIZE, |sorted|)))
  {
    hide Positive;
    var n := Min(MAX_LEADER_POOL_SIZE, |sorted|);
    var pool := Front(sorted, n);
    assert forall id | id in Positive(stakes) :: id in stakes by { PositiveKnown(stakes); }
    forall i | 0 <= i < n ensures Stakeholder(pool[i], stakes[pool[i]]) == sorted[i] {
    }
    forall id, i | id in Positive(stakes) && id !in pool && 0 <= i < n
      ensures Before(Stakeholder(pool[i], stakes[pool[i]]), Stakeholder(id, stakes[id]))
    {
      forall m | 0 <= m < n ensures sorted[m].id != id {
        assert pool[m] == sorted[m].id;
      }
      var m :| 0 <= m < |sorted| && sorted[m] == Stakeholder(id, stakes[id]);
    }
  }

  lemma PositiveKnown(stakes: Stakes)
    ensures forall id | id in Positive(stakes) :: id in stakes
  {
  }

  /** The positive stakeholders, in whatever order the map is walked. */
  method ListPositive(stakes: Stakes) returns (byStake: seq<Stakeholder>)
    ensures Lists(stakes, byStake)
  {
    hide Lists, ListsBut, Positive;
    byStake := [];
    var remaining := stakes.Keys;
    ListNone(stakes);
    while remaining != {}
      invariant remaining <= stakes.Keys
      invariant ListsBut(stakes, remaining, byStake)
    {
      var id :| id in remaining;
      ListOne(stakes, remaining, byStake, id);
      if stakes[id] > 0 {
        byStake := byStake + [Stakeholder(id, stakes[id])];
      }
      remaining := remaining - {id};
    }
    ListAll(stakes, byStake);
  }

  /** The list holds exactly the positive stakeholders outside a set of ids. */
  ghost predicate ListsBut(stakes: Stakes, remaining: set<Id>, holders: seq<Stakeholder>) {
    && DistinctIds(holders) && |holders| == |Positive(stakes) - remaining|
    && (forall i | 0 <= i < |holders| ::
         holders[i].id in Positive(stakes) - remaining && holders[i].stake == stakes[holders[i].id])
    && (forall id | id in Positive(stakes) - remaining :: Stakeholder(id, stakes[id]) in holders)
  }

  lemma ListNone(stakes: Stakes)
    ensures ListsBut(stakes, stakes.Keys, [])
  {
    assert Positive(stakes) - stakes.Keys == {};
  }

  lemma ListAll(stakes: Stakes, holders: seq<Stakeholder>)
    requires ListsBut(stakes, {}, holders)
    ensures Lists(stakes, holders)
  {
    assert Positive(stakes) - {} == Positive(stakes);
  }

  lemma ListOne(stakes: Stakes, remaining: set<Id>, holders: seq<Stakeholder>, id: Id)
    requires ListsBut(stakes, remaining, holders) && id in remaining && id in stakes
    ensures ListsBut(stakes, remaining - {id}, if stakes[id] > 0 then holders + [Stakeholder(id, stakes[id])] else holders)
  {
    if stakes[id] > 0 {
      ListPositiveOne(stakes, remaining, holders, id);
    } else {
      assert Positive(stakes) - (remaining - {id}) == Positive(stakes) - remaining;
    }
  }

  lemma ListPositiveOne(stakes: Stakes, remaining: set<Id>, holders: seq<Stakeholder>, id: Id)
    requires ListsBut(stakes, remaining, holders) && id in remaining && id in Positive(stakes)
    ensures ListsBut(stakes, remaining - {id}, holders + [Stakeholder(id, stakes[id])])
  {
    var longer := holders + [Stakeholder(id, stakes[id])];
    assert Positive(stakes) - (remaining - {id}) == Positive(stakes) - remaining + {id};
    forall other | other in Positive(stakes) - (remaining - {id}) ensures Stakeholder(other, stakes[other]) in longer {
      if other == id {
        assert longer[|holders|] == Stakeholder(other, stakes[other]);
      }
    }
  }

  /** The pool is the ranking's first hundred positive stakeholders. */
  method GetEligibleLeaderPool(stakes: Stakes) returns (pool: seq<Id>)
    ensures IsPool(stakes, pool)
  {
    hide SortRanked, Lists, IsPool, InOrder;
    var byStake := ListPositive(stakes);
    SortedLists(stakes, byStake);
    byStake := SortRanked(byStake);
    var n := Min(MAX_LEADER_POOL_SIZE, |byStake|);
    pool := [];
    var i := 0;
    while i < n
      invariant 0 <= i <= n && pool == Front(byStake, i)
    {
      assert Front(byStake, i + 1) == Front(byStake, i) + [byStake[i].id];
      pool := pool + [byStake[i].id];
      i := i + 1;
    }
    FrontIsPool(stakes, byStake);
  }

  function PoolLeader(pool: seq<Id>, hash: u64): Id {
    if pool == [] then 0 else pool[hash % |pool|]
  }

  /** The hash leaves the remainder `k` on division by the size of the pool. */
  predicate Picks(hash: nat, n: nat, q: nat, k: nat) {
    k < n && hash == q * n + k
  }

  lemma PicksOne(hash: nat, n: nat)
    requires n > 0
    ensures forall q, k | Picks(hash, n, q, k) :: hash % n == k
  {
    forall q, k | Picks(hash, n, q, k)
      ensures hash % n == k
    {
      RemainderIs(hash, n, q, k);
    }
  }

  /** The leader of a slot, `hash` being the first 64 bits of the slot's and epoch's digest; 0 when nobody has stake. */
  method SelectSlotLeader(stakes: Stakes, hash: u64) returns (leader: Id)
    ensures forall pool | IsPool(stakes, pool) :: leader == PoolLeader(pool, hash)
    ensures Positive(stakes) != {} ==> leader in Positive(stakes)
    ensures forall pool, q, k | IsPool(stakes, pool) && Picks(hash, |pool|, q, k) :: leader == pool[k]
    ensures Positive(stakes) == {} ==> leader == 0
    ensures leader == 0 && 0 !in Positive(stakes) ==> Positive(stakes) == {}
  {
    hide IsPool;
    var pool := GetEligibleLeaderPool(stakes);
    PoolSize(stakes, pool);
    forall other | IsPool(stakes, other) ensures other == pool {
      PoolUnique(stakes, other, pool);
    }
    PoolOfNobody(stakes, pool);
    if pool == [] {
      return 0;
    }
    PicksOne(hash, |pool|);
    leader := pool[hash % |pool|];
    PoolKnown(stakes, pool, hash % |pool|);
  }

  lemma PoolOfNobody(stakes: Stakes, pool: seq<Id>)
    requires IsPool(stakes, pool)
    ensures pool == [] <==> Positive(stakes) == {}
  {
  }

  lemma RemainderIs(x: nat, n: nat, q: nat, k: nat)
    requires k < n && x == q * n + k
    ensures x % n == k
  {
    assert q * n <= x < (q + 1) * n;
    QuotientUnique(x, n, q);
    assert x == (x / n) * n + x % n;
  }

  lemma RemainderExists(x: nat, n: nat) returns (q: nat, k: nat)
    requires n > 0
    ensures k < n && x == q * n + k
  {
    q, k := x / n, x % n;
  }

  /** A hash that leaves the remainder k picks the k-th of the ranking. */
  lemma HashPicks(stakes: Stakes, pool: seq<Id>, hash: u64, q: nat, k: nat)
    requires IsPool(stakes, pool) && Picks(hash, |pool|, q, k)
    ensures PoolLeader(pool, hash) == pool[k]
  {
    RemainderIs(hash, |pool|, q, k);
  }

  /** Every member of the pool leads for some hash, already among the first as many as there are members. */
  lemma EveryMemberLeads(stakes: Stakes, pool: seq<Id>, id: Id) returns (hash: u64)
    requires IsPool(stakes, pool) && id in pool
    ensures hash < 100 && PoolLeader(pool, hash) == id
  {
    var k :| 0 <= k < |pool| && pool[k] == id;
    hash := k;
    RemainderIs(hash, |pool|, 0, k);
  }

  /** Two hashes pick the same leader exactly when they leave the same remainder. */
  lemma SameLeaderIff(stakes: Stakes, pool: seq<Id>, x: u64, y: u64, q: nat, k: nat)
    requires IsPool(stakes, pool) && Picks(x, |pool|, q, k)
    ensures PoolLeader(pool, x) == PoolLeader(pool, y) <==> exists r :: Picks(y, |pool|, r, k)
  {
    hide Positive;
    HashPicks(stakes, pool, x, q, k);
    var r, j := RemainderExists(y, |pool|);
    assert Picks(y, |pool|, r, j);
    HashPicks(stakes, pool, y, r, j);
    if pool[k] == pool[j] {
      MembersDiffer(stakes, pool);
    }
    if s :| Picks(y, |pool|, s, k) {
      HashPicks(stakes, pool, y, s, k);
    }
  }

  /** No member appears twice. */
  lemma MembersDiffer(stakes: Stakes, pool: seq<Id>)
    requires IsPool(stakes, pool)
    ensures forall i, j | 0 <= i < j < |pool| :: pool[i] != pool[j]
  {
    forall i, j | 0 <= i < j < |pool|
      ensures pool[i] != pool[j]
    {
      assert Before(Stakeholder(pool[i], stakes[pool[i]]), Stakeholder(pool[j], stakes[pool[j]]));
    }
  }

  /** The ranking: a member of the pool has at least the stake of every later one and of everybody outside, and of two with the same
      stake the smaller id comes first; there are at most a hundred, and all positive stakeholders when there are no more. */
  lemma PoolMeaning(stakes: Stakes, pool: seq<Id>, i: nat, id: Id)
    requires IsPool(stakes, pool) && i < |pool| && id in stakes && stakes[id] > 0 && (id !in pool || id in pool[i + 1..])
    ensures stakes[pool[i]] > stakes[id] || (stakes[pool[i]] == stakes[id] && pool[i] < id)
    ensures |pool| <= 100 && (id !in pool ==> |pool| == 100)
  {
    if id in pool[i + 1..] {
      var j :| 0 <= j < |pool[i + 1..]| && pool[i + 1..][j] == id;
      assert pool[i + 1 + j] == id;
    } else {
      assert id in Positive(stakes);
      if |pool| < 100 {
        AllInPool(stakes, pool, id);
      }
    }
  }

  lemma AllInPool(stakes: Stakes, pool: seq<Id>, id: Id)
    requires IsPool(stakes, pool) && |pool| == |Positive(stakes)| && id in Positive(stakes)
    ensures id in pool
  {
    hide Positive;
    MembersDiffer(stakes, pool);
    var members := Members(pool);
    if id !in pool {
      assert members + {id} <= Positive(stakes);
      NoLarger(members + {id}, Positive(stakes));
    }
  }

  lemma NoLarger(some: set<Id>, all: set<Id>)
    requires some <= all
    ensures |some| <= |all|
  {
    assert (all - some) + some == all;
  }

  function Members(pool: seq<Id>): (members: set<Id>)
    ensures forall id :: id in members <==> id in pool
    ensures (forall i, j | 0 <= i < j < |pool| :: pool[i] != pool[j]) ==> |members| == |pool|
    decreases |pool|
  {
    if pool == [] then {} else Members(pool[..|pool| - 1]) + {pool[|pool| - 1]}
  }

  lemma PoolSize(stakes: Stakes, pool: seq<Id>)
    requires IsPool(stakes, pool)
    ensures |pool| == Min(MAX_LEADER_POOL_SIZE, |Positive(stakes)|)
    ensures pool == [] ==> Positive(stakes) == {}
  {
  }

  /** Two nodes that know the same stakeholders, in whatever order, have the same pool and the same leader for every slot and
      epoch, whatever the digest. */
  lemma LeaderCanonical(a: seq<Stakeholder>, b: seq<Stakeholder>, p: seq<Id>, q: seq<Id>, digest: (nat, nat) -> u64)
    requires DistinctIds(a) && DistinctIds(b) && forall h :: h in a <==> h in b
    requires IsPool(Registered(a), p) && IsPool(Registered(b), q)
    ensures p == q
    ensures forall slot: nat, epoch: nat :: PoolLeader(p, digest(slot, epoch)) == PoolLeader(q, digest(slot, epoch))
  {
    OrderIrrelevant(a, b);
    PoolUnique(Registered(a), p, q);
  }
}
