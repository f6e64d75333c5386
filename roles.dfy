/** Role assignment: the quota of each role for a player count, the bag of role tokens built
    from it, and the pairing of a shuffled id list with a shuffled bag.

    `random.Random(seed)` is abstracted as a `DrawSource`: the value its `_randbelow(bound)`
    returns, as a function of the seed and of the bounds of every earlier call on the same
    generator. `shuffle` itself is CPython's Fisher-Yates pass over the list. */
module Roles {
  import opened Schemas

  /** `_wolf_count`: one wolf up to 6 players, two up to 9, three from 10 on. */
  function WolfCount(playerCount: int): (w: nat)
    ensures 1 <= w <= 3
    ensures w == 1 <==> playerCount <= 6
    ensures w == 3 <==> playerCount >= 10
  {
    if playerCount <= 6 then 1
    else if playerCount <= 9 then 2
    else 3
  }

  /** More players never means fewer wolves. */
  lemma WolfCountMonotone(m: int, n: int)
    requires m <= n
    ensures WolfCount(m) <= WolfCount(n)
  {
  }

  /** A role distribution: `(role, amount)` entries in the dict's insertion order. */
  type Distribution = seq<(Role, int)>

  /** The amount a distribution gives to `role`. */
  function Quota(d: Distribution, role: Role): int
  {
    if d == [] then 0
    else Quota(d[..|d| - 1], role) + (if d[|d| - 1].0 == role then d[|d| - 1].1 else 0)
  }

  /** The sum of all amounts. */
  function Total(d: Distribution): int
  {
    if d == [] then 0 else Total(d[..|d| - 1]) + d[|d| - 1].1
  }

  /** A four-entry distribution, unfolded. */
  lemma FourEntries(d: Distribution)
    requires |d| == 4
    ensures Total(d) == d[0].1 + d[1].1 + d[2].1 + d[3].1
    ensures forall role :: Quota(d, role) == (if d[0].0 == role then d[0].1 else 0) + (if d[1].0 == role then d[1].1 else 0)
                                             + (if d[2].0 == role then d[2].1 else 0) + (if d[3].0 == role then d[3].1 else 0)
  {
    var d3 := d[..3];
    var d2 := d3[..2];
    var d1 := d2[..1];
    assert d1[..0] == [];
    assert Total(d1) == d[0].1;
    assert Total(d2) == d[0].1 + d[1].1;
    assert Total(d3) == d[0].1 + d[1].1 + d[2].1;
    forall role ensures Quota(d, role) == (if d[0].0 == role then d[0].1 else 0) + (if d[1].0 == role then d[1].1 else 0)
                                          + (if d[2].0 == role then d[2].1 else 0) + (if d[3].0 == role then d[3].1 else 0)
    {
      assert Quota(d1, role) == (if d[0].0 == role then d[0].1 else 0);
      assert Quota(d2, role) == Quota(d1, role) + (if d[1].0 == role then d[1].1 else 0);
      assert Quota(d3, role) == Quota(d2, role) + (if d[2].0 == role then d[2].1 else 0);
    }
  }

  /** The `ValueError` below five players. */
  const TooFewToStart := "Au moins 5 joueurs sont requis pour lancer une partie."
  /** The `ValueError` when the special roles leave no room for villagers. */
  const NotEnoughPlayers := "Le nombre de joueurs est insuffisant pour la distribution demandée."

  /** `role_distribution`: refused below five players; otherwise one seer, a witch from six
      players on, `WolfCount` wolves and villagers for the rest, all non-negative and adding
      up to the player count (so the "insufficient" error at the villager step is never
      raised). */
  function RoleDistribution(playerCount: int): (r: Result<Distribution, string>)
    ensures r.Err? <==> playerCount < 5
    ensures r.Err? ==> r.error == TooFewToStart
    ensures r.Ok? ==> Quota(r.value, Seer) == 1
    ensures r.Ok? ==> Quota(r.value, Witch) == (if playerCount >= 6 then 1 else 0)
    ensures r.Ok? ==> Quota(r.value, Wolf) == WolfCount(playerCount)
    ensures r.Ok? ==> Quota(r.value, Villager) == playerCount - 1 - Quota(r.value, Witch) - WolfCount(playerCount)
    ensures r.Ok? ==> Total(r.value) == playerCount
    ensures r.Ok? ==> forall k :: 0 <= k < |r.value| ==> r.value[k].1 >= 0
  {
    if playerCount < 5 then Err(TooFewToStart)
    else
      var witch := if playerCount >= 6 then 1 else 0;
      var wolves := WolfCount(playerCount);
      var villagers := playerCount - (1 + witch + wolves);
      if villagers < 0 then Err(NotEnoughPlayers)
      else
        var d := [(Seer, 1), (Witch, witch), (Wolf, wolves), (Villager, villagers)];
        FourEntries(d);
        Ok(d)
  }

  /** `[role] * amount`. */
  function Repeat(role: Role, amount: int): (r: seq<Role>)
    ensures |r| == if amount < 0 then 0 else amount
    ensures forall k :: 0 <= k < |r| ==> r[k] == role
  {
    if amount <= 0 then [] else Repeat(role, amount - 1) + [role]
  }

  /** The bag for a distribution: each entry's tokens, entry after entry. */
  function Bag(d: Distribution): seq<Role>
  {
    if d == [] then [] else Bag(d[..|d| - 1]) + Repeat(d[|d| - 1].0, d[|d| - 1].1)
  }

  /** With non-negative amounts, the bag has `Total` tokens and holds each role exactly as
      many times as the distribution says. */
  lemma {:induction false} BagCounts(d: Distribution)
    requires forall k :: 0 <= k < |d| ==> d[k].1 >= 0
    ensures |Bag(d)| == Total(d)
    ensures forall role :: multiset(Bag(d))[role] == Quota(d, role)
  {
    if d != [] {
      var last := d[|d| - 1];
      BagCounts(d[..|d| - 1]);
      forall role ensures multiset(Repeat(last.0, last.1))[role] == if last.0 == role then last.1 else 0 {
        RepeatCount(last.0, last.1, role);
      }
    }
  }

  lemma {:induction false} RepeatCount(role: Role, amount: int, other: Role)
    ensures multiset(Repeat(role, amount))[other] == if role == other && amount > 0 then amount else 0
  {
    if amount > 0 {
      RepeatCount(role, amount - 1, other);
    }
  }

  /** The loop `for role, amount in distribution.items(): bag.extend([role] * amount)`. */
  method BuildBag(d: Distribution) returns (bag: seq<Role>)
    ensures bag == Bag(d)
  {
    bag := [];
    var i := 0;
    while i < |d|
      invariant 0 <= i <= |d|
      invariant bag == Bag(d[..i])
    {
      assert d[..i + 1][..i] == d[..i];
      bag := bag + Repeat(d[i].0, d[i].1);
      i := i + 1;
    }
    assert d[..|d|] == d;
  }

  /** `random.Random(seed)`: what `_randbelow(bound)` returns after the calls whose bounds
      are `earlier`; always below the bound. */
  type DrawSource = f: (Option<int>, seq<nat>, nat) -> nat
    | forall seed, earlier, bound :: 0 < bound ==> f(seed, earlier, bound) < bound
    witness (seed: Option<int>, earlier: seq<nat>, bound: nat) => 0

  predicate Distinct<T(==)>(s: seq<T>)
  {
    forall p, q :: 0 <= p < q < |s| ==> s[p] != s[q]
  }

  function Swap<T>(s: seq<T>, i: nat, j: nat): seq<T>
    requires i < |s| && j < |s|
  {
    s[i := s[j]][j := s[i]]
  }

  /** A swap rearranges the list without losing, adding or merging entries. */
  lemma SwapPermutes<T>(s: seq<T>, i: nat, j: nat)
    requires i < |s| && j < |s|
    ensures |Swap(s, i, j)| == |s| && multiset(Swap(s, i, j)) == multiset(s)
    ensures Distinct(s) ==> Distinct(Swap(s, i, j))
  {
    var r := Swap(s, i, j);
    if Distinct(s) {
      forall p, q | 0 <= p < q < |r| ensures r[p] != r[q] {
        var sp := if p == i then j else if p == j then i else p;
        var sq := if q == i then j else if q == j then i else q;
        assert r[p] == s[sp] && r[q] == s[sq] && sp != sq;
      }
    }
  }

  /** Fisher-Yates from position `i` down to 1: position `i` is swapped with the draw below
      `i + 1`; the result is the list and the bounds drawn so far. */
  function ShuffleFrom<T(==)>(s: seq<T>, i: nat, draw: DrawSource, seed: Option<int>, earlier: seq<nat>): (r: (seq<T>, seq<nat>))
    requires i < |s| || i == 0
    decreases i
  {
    if i == 0 then (s, earlier)
    else ShuffleFrom(Swap(s, i, draw(seed, earlier, i + 1)), i - 1, draw, seed, earlier + [i + 1])
  }

  /** Each pass only swaps: it rearranges the list without losing, adding or merging
      entries. */
  lemma {:induction false} ShuffleFromPermutes<T>(s: seq<T>, i: nat, draw: DrawSource, seed: Option<int>, earlier: seq<nat>)
    requires i < |s| || i == 0
    ensures var r := ShuffleFrom(s, i, draw, seed, earlier).0;
            |r| == |s| && multiset(r) == multiset(s) && (Distinct(s) ==> Distinct(r))
    decreases i
  {
    if i > 0 {
      SwapPermutes(s, i, draw(seed, earlier, i + 1));
      ShuffleFromPermutes(Swap(s, i, draw(seed, earlier, i + 1)), i - 1, draw, seed, earlier + [i + 1]);
    }
  }

  /** `rng.shuffle(x)`: the pass starts at the last position. */
  function Shuffled<T(==)>(s: seq<T>, draw: DrawSource, seed: Option<int>, earlier: seq<nat>): (r: (seq<T>, seq<nat>))
    ensures |r.0| == |s| && multiset(r.0) == multiset(s)
    ensures Distinct(s) ==> Distinct(r.0)
  {
    ShuffleFromPermutes(s, if |s| == 0 then 0 else |s| - 1, draw, seed, earlier);
    ShuffleFrom(s, if |s| == 0 then 0 else |s| - 1, draw, seed, earlier)
  }

  lemma ShuffleStep<T>(s: seq<T>, i: nat, draw: DrawSource, seed: Option<int>, earlier: seq<nat>)
    requires 0 < i < |s|
    ensures ShuffleFrom(s, i, draw, seed, earlier)
            == ShuffleFrom(Swap(s, i, draw(seed, earlier, i + 1)), i - 1, draw, seed, earlier + [i + 1])
  {
  }

  /** `x[i], x[j] = x[j], x[i]`. */
  method SwapInPlace<T>(a: array<T>, i: nat, j: nat)
    requires i < a.Length && j < a.Length
    modifies a
    ensures a[..] == Swap(old(a[..]), i, j)
  {
    a[i], a[j] := a[j], a[i];
  }

  /** `rng.shuffle(a)` in place; `drawn` is the generator's history afterwards. */
  method Shuffle<T(==)>(a: array<T>, draw: DrawSource, seed: Option<int>, earlier: seq<nat>) returns (drawn: seq<nat>)
    modifies a
    ensures (a[..], drawn) == Shuffled(old(a[..]), draw, seed, earlier)
  {
    drawn := earlier;
    if a.Length == 0 {
      return;
    }
    ghost var goal := Shuffled(a[..], draw, seed, earlier);
    var i := a.Length - 1;
    while i > 0
      invariant 0 <= i < a.Length
      invariant ShuffleFrom(a[..], i, draw, seed, drawn) == goal
    {
      var j := draw(seed, drawn, i + 1);
      ShuffleStep(a[..], i, draw, seed, drawn);
      SwapInPlace(a, i, j);
      drawn := drawn + [i + 1];
      i := i - 1;
    }
  }

  /** `x = list(s); rng.shuffle(x)`. */
  method ShuffledCopy<T(==)>(s: seq<T>, draw: DrawSource, seed: Option<int>, earlier: seq<nat>) returns (r: seq<T>, drawn: seq<nat>)
    ensures (r, drawn) == Shuffled(s, draw, seed, earlier)
  {
    var a := new T[|s|](k requires 0 <= k < |s| => s[k]);
    assert a[..] == s;
    drawn := Shuffle(a, draw, seed, earlier);
    r := a[..];
  }

  /** `{player_id: bag[index] for index, player_id in enumerate(ids)}`: a later duplicate id
      overwrites an earlier one. */
  function Pairing(ids: seq<PlayerId>, bag: seq<Role>): map<PlayerId, Role>
    requires |ids| == |bag|
  {
    if ids == [] then map[]
    else Pairing(ids[..|ids| - 1], bag[..|bag| - 1])[ids[|ids| - 1] := bag[|bag| - 1]]
  }

  /** The pairing has exactly the listed ids as keys and, when they are distinct, gives each
      id the token at its own position. */
  lemma {:induction false} PairingFacts(ids: seq<PlayerId>, bag: seq<Role>)
    requires |ids| == |bag|
    ensures forall x :: x in Pairing(ids, bag) <==> x in ids
    ensures Distinct(ids) ==> forall k :: 0 <= k < |ids| ==> Pairing(ids, bag)[ids[k]] == bag[k]
  {
    if ids != [] {
      var n := |ids| - 1;
      PairingFacts(ids[..n], bag[..n]);
      assert forall x :: x in ids <==> x in ids[..n] || x == ids[n];
      if Distinct(ids) {
        forall k | 0 <= k < |ids| ensures Pairing(ids, bag)[ids[k]] == bag[k] {
          if k < n {
            assert ids[..n][k] == ids[k] && bag[..n][k] == bag[k];
          }
        }
      }
    }
  }

  /** The roles `m` gives to `ks`, in the order of `ks`. */
  function Lookup<K, V>(m: map<K, V>, ks: seq<K>): (r: seq<V>)
    requires forall k :: k in ks ==> k in m
    ensures |r| == |ks| && forall i :: 0 <= i < |ks| ==> r[i] == m[ks[i]]
  {
    if ks == [] then [] else [m[ks[0]]] + Lookup(m, ks[1..])
  }

  lemma LookupAppend<K, V>(m: map<K, V>, x: seq<K>, y: seq<K>)
    requires forall k :: k in x + y ==> k in m
    ensures forall k :: k in x ==> k in m
    ensures forall k :: k in y ==> k in m
    ensures Lookup(m, x + y) == Lookup(m, x) + Lookup(m, y)
  {
    assert forall k :: k in x ==> k in x + y;
    assert forall k :: k in y ==> k in x + y;
  }

  /** Taking the same entry out of two rearrangements of one another leaves two
      rearrangements of one another. */
  lemma RemoveMatching<T>(a: seq<T>, b: seq<T>, k: nat)
    requires multiset(a) == multiset(b) && a != [] && k < |b| && b[k] == a[0]
    ensures multiset(b[..k] + b[k + 1..]) == multiset(a[1..])
  {
    assert b == b[..k] + [b[k]] + b[k + 1..];
    assert a == [a[0]] + a[1..];
    forall x ensures multiset(b[..k] + b[k + 1..])[x] == multiset(a[1..])[x] {
      assert multiset(b)[x] == multiset(b[..k])[x] + multiset{b[k]}[x] + multiset(b[k + 1..])[x];
      assert multiset(a)[x] == multiset{a[0]}[x] + multiset(a[1..])[x];
    }
  }

  /** Looking up a list is looking up its `k`th key and the list without it. */
  lemma LookupAround<K, V>(m: map<K, V>, b: seq<K>, k: nat)
    requires k < |b| && forall x :: x in b ==> x in m
    ensures forall x :: x in b[..k] + b[k + 1..] ==> x in m
    ensures multiset(Lookup(m, b)) == multiset{m[b[k]]} + multiset(Lookup(m, b[..k] + b[k + 1..]))
  {
    assert forall x :: x in b[..k] + b[k + 1..] ==> x in b;
    assert b == b[..k] + ([b[k]] + b[k + 1..]);
    LookupAppend(m, b[..k], [b[k]] + b[k + 1..]);
    LookupAppend(m, [b[k]], b[k + 1..]);
    LookupAppend(m, b[..k], b[k + 1..]);
  }

  /** One step of `LookupPermutation`: match the head of `a` in `b`, and reduce the
      claim to the two lists without it. */
  lemma PermutationStep<K, V>(m: map<K, V>, a: seq<K>, b: seq<K>) returns (rest: seq<K>)
    requires multiset(a) == multiset(b) && a != []
    requires forall k :: k in a ==> k in m
    requires forall k :: k in b ==> k in m
    ensures multiset(a[1..]) == multiset(rest)
    ensures forall k :: k in a[1..] ==> k in m
    ensures forall k :: k in rest ==> k in m
    ensures a[0] in m
    ensures multiset(Lookup(m, a)) == multiset{m[a[0]]} + multiset(Lookup(m, a[1..]))
    ensures multiset(Lookup(m, b)) == multiset{m[a[0]]} + multiset(Lookup(m, rest))
  {
    assert a[0] in multiset(b);
    var k :| 0 <= k < |b| && b[k] == a[0];
    rest := b[..k] + b[k + 1..];
    RemoveMatching(a, b, k);
    LookupAround(m, b, k);
    assert forall x :: x in a[1..] ==> x in a;
    assert Lookup(m, a) == [m[a[0]]] + Lookup(m, a[1..]);
  }

  /** Looking up a rearrangement of the keys gives a rearrangement of the roles. */
  lemma {:induction false} LookupPermutation<K, V>(m: map<K, V>, a: seq<K>, b: seq<K>)
    requires multiset(a) == multiset(b)
    requires forall k :: k in a ==> k in m
    requires forall k :: k in b ==> k in m
    ensures multiset(Lookup(m, a)) == multiset(Lookup(m, b))
  {
    if a != [] {
      var rest := PermutationStep(m, a, b);
      LookupPermutation(m, a[1..], rest);
    } else {
      assert |b| == |multiset(b)| == 0;
    }
  }

  /** The mapping `assign_roles` computes: shuffle the ids, then the bag with the same
      generator, and pair them by position. */
  function Assignment(ids: seq<PlayerId>, draw: DrawSource, seed: Option<int>): map<PlayerId, Role>
    requires |ids| >= 5
  {
    var d := RoleDistribution(|ids|).value;
    var shuffledIds := Shuffled(ids, draw, seed, []);
    var shuffledBag := Shuffled(Bag(d), draw, seed, shuffledIds.1);
    BagCounts(d);
    Pairing(shuffledIds.0, shuffledBag.0)
  }

  /** Two rearrangements of one another have the same members. */
  lemma SameMembers<T>(a: seq<T>, b: seq<T>)
    requires multiset(a) == multiset(b)
    ensures forall x :: x in a <==> x in b
  {
    forall x ensures x in a <==> x in b {
      assert x in a <==> x in multiset(a);
      assert x in b <==> x in multiset(b);
    }
  }

  /** Every listed id gets a role, and nothing else does. */
  lemma AssignmentKeys(ids: seq<PlayerId>, draw: DrawSource, seed: Option<int>)
    requires |ids| >= 5
    ensures forall x :: x in Assignment(ids, draw, seed) <==> x in ids
  {
    var d := RoleDistribution(|ids|).value;
    var shuffledIds := Shuffled(ids, draw, seed, []);
    var shuffledBag := Shuffled(Bag(d), draw, seed, shuffledIds.1);
    BagCounts(d);
    PairingFacts(shuffledIds.0, shuffledBag.0);
    SameMembers(shuffledIds.0, ids);
  }

  /** Pairing a rearrangement of distinct ids with a bag, then looking the original ids up,
      hands out exactly the bag's tokens. */
  lemma PairingLookup(ids: seq<PlayerId>, shuffledIds: seq<PlayerId>, bag: seq<Role>)
    requires multiset(shuffledIds) == multiset(ids) && Distinct(ids) && Distinct(shuffledIds)
    requires |shuffledIds| == |bag|
    ensures forall x :: x in ids ==> x in Pairing(shuffledIds, bag)
    ensures multiset(Lookup(Pairing(shuffledIds, bag), ids)) == multiset(bag)
  {
    var m := Pairing(shuffledIds, bag);
    PairingFacts(shuffledIds, bag);
    SameMembers(shuffledIds, ids);
    LookupPermutation(m, shuffledIds, ids);
    assert Lookup(m, shuffledIds) == bag;
  }

  /** With distinct ids, the roles handed out are exactly the bag's tokens. */
  lemma AssignmentTokens(ids: seq<PlayerId>, draw: DrawSource, seed: Option<int>)
    requires |ids| >= 5 && Distinct(ids)
    ensures forall x :: x in ids ==> x in Assignment(ids, draw, seed)
    ensures multiset(Lookup(Assignment(ids, draw, seed), ids)) == multiset(Bag(RoleDistribution(|ids|).value))
  {
    var d := RoleDistribution(|ids|).value;
    var shuffledIds := Shuffled(ids, draw, seed, []);
    var shuffledBag := Shuffled(Bag(d), draw, seed, shuffledIds.1);
    BagCounts(d);
    PairingLookup(ids, shuffledIds.0, shuffledBag.0);
  }

  /** With distinct ids each role goes to exactly its quota of players: one seer, a witch
      from six players on, `WolfCount` wolves and villagers for the rest. */
  lemma AssignmentQuotas(ids: seq<PlayerId>, draw: DrawSource, seed: Option<int>)
    requires |ids| >= 5 && Distinct(ids)
    ensures forall x :: x in ids ==> x in Assignment(ids, draw, seed)
    ensures var roles := multiset(Lookup(Assignment(ids, draw, seed), ids));
            && roles[Seer] == 1
            && roles[Witch] == (if |ids| >= 6 then 1 else 0)
            && roles[Wolf] == WolfCount(|ids|)
            && roles[Villager] == |ids| - 1 - roles[Witch] - roles[Wolf]
  {
    AssignmentTokens(ids, draw, seed);
    BagCounts(RoleDistribution(|ids|).value);
  }

  /** `assign_roles`: refused below five ids; otherwise the mapping above, whose keys are
      exactly the ids. */
  method AssignRoles(playerIds: seq<PlayerId>, draw: DrawSource, seed: Option<int>) returns (r: Result<map<PlayerId, Role>, string>)
    ensures r.Err? <==> |playerIds| < 5
    ensures r.Err? ==> r.error == TooFewToStart
    ensures r.Ok? ==> r.value == Assignment(playerIds, draw, seed)
    ensures r.Ok? ==> forall x :: x in r.value <==> x in playerIds
  {
    var count := |playerIds|;
    var distribution := RoleDistribution(count);
    if distribution.Err? {
      return Err(distribution.error);
    }
    var bag := BuildBag(distribution.value);
    BagCounts(distribution.value);
    var ids, drawn := ShuffledCopy(playerIds, draw, seed, []);
    bag, drawn := ShuffledCopy(bag, draw, seed, drawn);
    r := Ok(Pairing(ids, bag));
    AssignmentKeys(playerIds, draw, seed);
  }
}
