/** The pointer-chasing benchmark of lab 5. `next` models the array of elements: the pointer stored in
    element v is the index next[v] of the element it points to. */
module PointerChase {
  import opened Bits
  import opened Division

  const RAND_MAX: nat := 32767
  const SEQUENTIAL: int := 0
  const RANDOM: int := 1
  const FIRST_SIZE: nat := 256

  // ---------------------------------------------------------------- permutations

  ghost predicate IsPermutation(p: seq<nat>) {
    && (forall i | 0 <= i < |p| :: p[i] < |p|)
    && (forall i, j | 0 <= i < j < |p| :: p[i] != p[j])
  }

  function Iota(n: nat): seq<nat> {
    seq(n, i => i)
  }

  function Swap(s: seq<nat>, i: nat, j: nat): seq<nat>
    requires i < |s| && j < |s|
  {
    s[i := s[j]][j := s[i]]
  }

  lemma SwapKeepsPermutation(s: seq<nat>, i: nat, j: nat)
    requires IsPermutation(s) && i < |s| && j < |s|
    ensures IsPermutation(Swap(s, i, j))
  {
  }

  /** The values below n, each once. */
  function Below(n: nat): (s: set<nat>)
    ensures |s| == n && forall v: nat :: v in s <==> v < n
  {
    if n == 0 then {} else Below(n - 1) + {n - 1}
  }

  function Elements(p: seq<nat>): (s: set<nat>)
    ensures forall v :: v in s <==> v in p
  {
    if p == [] then {} else Elements(p[..|p| - 1]) + {p[|p| - 1]}
  }

  lemma {:induction false} DistinctElements(p: seq<nat>)
    requires forall i, j | 0 <= i < j < |p| :: p[i] != p[j]
    ensures |Elements(p)| == |p|
  {
    if p != [] {
      DistinctElements(p[..|p| - 1]);
    }
  }

  lemma SubsetOfSameSize(a: set<nat>, b: set<nat>)
    requires a <= b && |a| == |b|
    ensures a == b
  {
    assert |b - a| == |b| - |a|;
  }

  /** A permutation of 0..n-1 contains every value below n. */
  lemma PermutationHits(p: seq<nat>, v: nat) returns (i: nat)
    requires IsPermutation(p) && v < |p|
    ensures i < |p| && p[i] == v
  {
    DistinctElements(p);
    SubsetOfSameSize(Elements(p), Below(|p|));
    assert v in Elements(p);
    i :| 0 <= i < |p| && p[i] == v;
  }

  // ---------------------------------------------------------------- the random source

  /** longrand: `lo` and `hi` are the values of the two calls to rand(). */
  function LongRand(lo: nat, hi: nat, max: nat): nat
    requires lo <= RAND_MAX && hi <= RAND_MAX && max > 0
  {
    Xor(lo, Shl(hi, 15)) % max
  }

  lemma RandPairValue(lo: nat, hi: nat)
    requires lo <= RAND_MAX && hi <= RAND_MAX
    ensures Xor(lo, Shl(hi, 15)) == lo + 0x8000 * hi < Pow2(30)
  {
    ShiftValues(hi);
    XorDisjoint(lo, hi, 15);
  }

  /** rand() ^ (rand() << 15) is a bijection from pairs of 15-bit values onto 0 .. 2^30 - 1: it yields
      x for exactly one pair. */
  lemma RandPairBijection(x: nat, lo: nat, hi: nat)
    requires lo <= RAND_MAX && hi <= RAND_MAX
    ensures Xor(lo, Shl(hi, 15)) < Pow2(30)
    ensures Xor(lo, Shl(hi, 15)) == x <==> lo == x % 0x8000 && hi == x / 0x8000
    ensures x < Pow2(30) ==> x % 0x8000 <= RAND_MAX && x / 0x8000 <= RAND_MAX
  {
    RandPairValue(lo, hi);
    ShiftValues(hi);
  }

  /** Every index below `max` is a possible result as long as max does not exceed 2^30. */
  lemma LongRandReaches(v: nat, max: nat) returns (lo: nat, hi: nat)
    requires v < max <= Pow2(30)
    ensures lo <= RAND_MAX && hi <= RAND_MAX && LongRand(lo, hi, max) == v
  {
    ShiftValues(0);
    lo, hi := v % 0x8000, v / 0x8000;
    RandPairBijection(v, lo, hi);
    ModUnique(v, 0, v, max);
  }

  /** Beyond max the values are folded: two pairs give the same index if and only if their values differ by a
      multiple of max. */
  lemma LongRandFolds(lo: nat, hi: nat, lo': nat, hi': nat, max: nat)
    requires lo <= RAND_MAX && hi <= RAND_MAX && lo' <= RAND_MAX && hi' <= RAND_MAX && max > 0
    ensures LongRand(lo, hi, max) < max
    ensures LongRand(lo, hi, max) == LongRand(lo', hi', max)
            <==> exists k: int :: (lo + 0x8000 * hi) - (lo' + 0x8000 * hi') == k * max
  {
    LongRandIsResidue(lo, hi, max);
    LongRandIsResidue(lo', hi', max);
    SameResidue(lo + 0x8000 * hi, lo' + 0x8000 * hi', max);
  }

  lemma LongRandIsResidue(lo: nat, hi: nat, max: nat)
    requires lo <= RAND_MAX && hi <= RAND_MAX && max > 0
    ensures LongRand(lo, hi, max) == (lo + 0x8000 * hi) % max < max
  {
    RandPairValue(lo, hi);
  }

  lemma SameResidue(a: int, b: int, n: nat)
    requires n > 0
    ensures a % n == b % n <==> exists k: int :: a - b == k * n
  {
    var q, r := Split(a, n);
    var q', r' := Split(b, n);
    if r == r' {
      assert a - b == (q - q') * n;
    }
    if k: int :| a - b == k * n {
      assert a == (q' + k) * n + r';
      ModUnique(a, q' + k, r', n);
    }
  }

  // ---------------------------------------------------------------- the shuffle

  ghost predicate InRange(draws: seq<nat>, n: nat) {
    forall i | 0 <= i < |draws| :: draws[i] < n
  }

  /** random_indexes after the first |draws| turns of the swap loop. */
  function Shuffled(n: nat, draws: seq<nat>): (s: seq<nat>)
    requires |draws| <= n && forall i | 0 <= i < |draws| :: draws[i] < n
    ensures |s| == n
  {
    if draws == [] then Iota(n)
    else
      var m := |draws| - 1;
      Swap(Shuffled(n, draws[..m]), m, draws[m])
  }

  /** t is s with the entries i and j exchanged. */
  ghost predicate Exchanged(s: seq<nat>, t: seq<nat>, i: nat, j: nat) {
    && |t| == |s| && i < |s| && j < |s|
    && t[i] == s[j] && t[j] == s[i]
    && forall k | 0 <= k < |s| && k != i && k != j :: t[k] == s[k]
  }

  /** h lists the array 0..n-1 and what it is after each turn: turn m exchanges the entries m and draws[m],
      whichever is the larger. */
  ghost predicate IsShuffle(h: seq<seq<nat>>, n: nat, draws: seq<nat>) {
    && |h| == |draws| + 1 && h[0] == Iota(n)
    && forall m | 0 <= m < |draws| :: Exchanged(h[m], h[m + 1], m, draws[m])
  }

  lemma {:induction false} ShuffledExchanges(n: nat, draws: seq<nat>) returns (h: seq<seq<nat>>)
    requires |draws| <= n && InRange(draws, n)
    ensures IsShuffle(h, n, draws) && h[|draws|] == Shuffled(n, draws)
  {
    if draws == [] {
      h := [Iota(n)];
    } else {
      var m := |draws| - 1;
      h := ShuffledExchanges(n, draws[..m]);
      h := h + [Shuffled(n, draws)];
    }
  }

  lemma {:induction false} ShuffledIsPermutation(n: nat, draws: seq<nat>)
    requires |draws| <= n && InRange(draws, n)
    ensures IsPermutation(Shuffled(n, draws))
  {
    if draws != [] {
      var m := |draws| - 1;
      ShuffledIsPermutation(n, draws[..m]);
      SwapKeepsPermutation(Shuffled(n, draws[..m]), m, draws[m]);
    }
  }

  /** The place in cur of the next entry of p; it never lies before m, because the entries before m are
      already those of p. */
  lemma NextDraw(p: seq<nat>, cur: seq<nat>, m: nat) returns (j: nat)
    requires IsPermutation(p) && IsPermutation(cur) && m < |p| == |cur| && cur[..m] == p[..m]
    ensures m <= j < |p| && cur[j] == p[m]
    ensures Swap(cur, m, j)[..m + 1] == p[..m + 1]
  {
    j := PermutationHits(cur, p[m]);
    assert forall i | 0 <= i < m :: cur[i] == cur[..m][i] == p[..m][i] == p[i];
  }

  /** Draws that put the first k entries of p in place. */
  lemma {:induction false} DrawsFor(p: seq<nat>, k: nat) returns (draws: seq<nat>)
    requires IsPermutation(p) && k <= |p|
    ensures |draws| == k && InRange(draws, |p|)
    ensures Shuffled(|p|, draws)[..k] == p[..k]
  {
    if k == 0 {
      draws := [];
    } else {
      var before := DrawsFor(p, k - 1);
      ShuffledIsPermutation(|p|, before);
      var j := NextDraw(p, Shuffled(|p|, before), k - 1);
      draws := before + [j];
      assert draws[..k - 1] == before;
    }
  }

  /** The outcomes of the 2n calls to rand() made by one shuffle of n elements. */
  ghost predicate AreRandPairs(pairs: seq<(nat, nat)>) {
    forall i | 0 <= i < |pairs| :: pairs[i].0 <= RAND_MAX && pairs[i].1 <= RAND_MAX
  }

  function DrawsOf(pairs: seq<(nat, nat)>, max: nat): (draws: seq<nat>)
    requires max > 0 && forall i | 0 <= i < |pairs| :: pairs[i].0 <= RAND_MAX && pairs[i].1 <= RAND_MAX
    ensures |draws| == |pairs| && forall i | 0 <= i < |draws| :: draws[i] < max
  {
    seq(|pairs|, i requires 0 <= i < |pairs| => LongRand(pairs[i].0, pairs[i].1, max))
  }

  lemma DrawsOfSnoc(pairs: seq<(nat, nat)>, pair: (nat, nat), max: nat)
    requires max > 0 && AreRandPairs(pairs + [pair])
    requires AreRandPairs(pairs) && pair.0 <= RAND_MAX && pair.1 <= RAND_MAX
    ensures DrawsOf(pairs + [pair], max) == DrawsOf(pairs, max) + [LongRand(pair.0, pair.1, max)]
  {
  }

  lemma {:induction false} PairsFor(draws: seq<nat>, max: nat) returns (pairs: seq<(nat, nat)>)
    requires 0 < max <= Pow2(30) && InRange(draws, max)
    ensures AreRandPairs(pairs) && |pairs| == |draws| && DrawsOf(pairs, max) == draws
  {
    if draws == [] {
      pairs := [];
    } else {
      var m := |draws| - 1;
      var before := PairsFor(draws[..m], max);
      var lo, hi := LongRandReaches(draws[m], max);
      DrawsOfSnoc(before, (lo, hi), max);
      pairs := before + [(lo, hi)];
      assert draws == draws[..m] + [draws[m]];
    }
  }

  /** Every permutation of 0..n-1 is the result of the shuffle for some outcomes of rand(). */
  lemma EveryPermutationIsReachable(p: seq<nat>) returns (pairs: seq<(nat, nat)>)
    requires 0 < |p| <= Pow2(30) && IsPermutation(p)
    ensures |pairs| == |p| && AreRandPairs(pairs)
    ensures Shuffled(|p|, DrawsOf(pairs, |p|)) == p
  {
    var draws := DrawsFor(p, |p|);
    pairs := PairsFor(draws, |p|);
    var s := Shuffled(|p|, draws);
    assert s == s[..|p|] && p == p[..|p|];
  }

  // ---------------------------------------------------------------- the linked cycle

  function Successor(i: nat, n: nat): (j: nat)
    requires i < n
    ensures j < n
  {
    if i + 1 == n then 0 else i + 1
  }

  /** next links the first |order| elements in one cycle, in the given order. */
  ghost predicate LinksCycle(next: seq<nat>, order: seq<nat>) {
    && 0 < |order| <= |next|
    && IsPermutation(order)
    && forall i | 0 <= i < |order| :: next[order[i]] == order[Successor(i, |order|)]
  }

  /** Following k links inside the first n elements. */
  ghost function Walk(next: seq<nat>, n: nat, v: nat, k: nat): (w: nat)
    requires n <= |next| && v < n && forall u | 0 <= u < n :: next[u] < n
    ensures w < n
  {
    if k == 0 then v else next[Walk(next, n, v, k - 1)]
  }

  lemma CycleStaysInside(next: seq<nat>, order: seq<nat>)
    requires LinksCycle(next, order)
    ensures forall u | 0 <= u < |order| :: next[u] < |order|
  {
    forall u | 0 <= u < |order|
      ensures next[u] < |order|
    {
      var i := PermutationHits(order, u);
      assert next[order[i]] == order[Successor(i, |order|)];
    }
  }

  /** The place in a cycle of length n reached from place j after k links. */
  ghost function Place(j: nat, k: nat, n: nat): (p: nat)
    requires j < n
    ensures p < n
  {
    if k == 0 then j else Successor(Place(j, k - 1, n), n)
  }

  lemma {:induction false} PlaceIsModular(j: nat, k: nat, n: nat)
    requires j < n
    ensures Place(j, k, n) == (j + k) % n
  {
    if k == 0 {
      ModUnique(j, 0, j, n);
    } else {
      PlaceIsModular(j, k - 1, n);
      ModSucc(j + k - 1, n);
    }
  }

  lemma {:induction false} WalkVisitsPlaces(next: seq<nat>, order: seq<nat>, j: nat, k: nat)
    requires LinksCycle(next, order) && j < |order|
    requires forall u | 0 <= u < |order| :: next[u] < |order|
    ensures Walk(next, |order|, order[j], k) == order[Place(j, k, |order|)]
  {
    if k > 0 {
      WalkVisitsPlaces(next, order, j, k - 1);
    }
  }

  /** k links lead from order[j] to order[(j + k) mod n]. */
  lemma WalkAlongCycle(next: seq<nat>, order: seq<nat>, j: nat, k: nat)
    requires LinksCycle(next, order) && j < |order|
    requires forall u | 0 <= u < |order| :: next[u] < |order|
    ensures Walk(next, |order|, order[j], k) == order[(j + k) % |order|]
  {
    WalkVisitsPlaces(next, order, j, k);
    PlaceIsModular(j, k, |order|);
  }

  lemma OffsetModWraps(j: nat, k: nat, n: nat)
    requires j < n && k <= n
    ensures (j + k) % n == j <==> k == 0 || k == n
  {
    if j + k < n {
      ModUnique(j + k, 0, j + k, n);
    } else {
      ModUnique(j + k, 1, j + k - n, n);
    }
  }

  /** Whatever element one starts from, the first return to it is after exactly n links. */
  lemma FirstReturn(next: seq<nat>, order: seq<nat>, v: nat, k: nat)
    requires LinksCycle(next, order) && v < |order| && 0 < k <= |order|
    ensures forall u | 0 <= u < |order| :: next[u] < |order|
    ensures Walk(next, |order|, v, k) == v <==> k == |order|
  {
    CycleStaysInside(next, order);
    var j := PermutationHits(order, v);
    WalkAlongCycle(next, order, j, k);
    OffsetModWraps(j, k, |order|);
  }

  /** seqArray */
  method SeqArray(next: array<nat>, n: nat)
    requires 1 <= n <= next.Length
    modifies next
    ensures LinksCycle(next[..], Iota(n))
    ensures next[n..] == old(next[n..])
  {
    var i := 0;
    while i < n - 1
      invariant 0 <= i <= n - 1
      invariant forall k | 0 <= k < i :: next[k] == k + 1
      invariant next[n..] == old(next[n..])
    {
      next[i] := i + 1;
      i := i + 1;
    }
    next[i] := 0;
    assert forall k | 0 <= k < n :: Iota(n)[k] == k;
  }

  /** ranArray: the i-th call to longrand(n) returns draws[i]. */
  method RanArray(next: array<nat>, randomIndexes: array<nat>, n: nat, draws: seq<nat>)
    returns (ghost h: seq<seq<nat>>)
    requires 1 <= n <= next.Length && n <= randomIndexes.Length && next != randomIndexes
    requires |draws| == n && InRange(draws, n)
    modifies next, randomIndexes
    ensures randomIndexes[..n] == Shuffled(n, draws)
    ensures IsShuffle(h, n, draws) && h[n] == randomIndexes[..n]
    ensures LinksCycle(next[..], randomIndexes[..n])
    ensures next[n..] == old(next[n..]) && randomIndexes[n..] == old(randomIndexes[n..])
  {
    FillIdentity(randomIndexes, n);
    h := ShuffleInPlace(randomIndexes, n, draws);
    ShuffledIsPermutation(n, draws);
    LinkInOrder(next, randomIndexes, n);
  }

  method FillIdentity(a: array<nat>, n: nat)
    requires n <= a.Length
    modifies a
    ensures a[..n] == Iota(n) && a[n..] == old(a[n..])
  {
    for i := 0 to n
      invariant forall k | 0 <= k < i :: a[k] == k
      invariant a[n..] == old(a[n..])
    {
      a[i] := i;
    }
  }

  method ShuffleInPlace(a: array<nat>, n: nat, draws: seq<nat>) returns (ghost h: seq<seq<nat>>)
    requires n <= a.Length && a[..n] == Iota(n)
    requires |draws| == n && InRange(draws, n)
    modifies a
    ensures a[..n] == Shuffled(n, draws) && a[n..] == old(a[n..])
    ensures IsShuffle(h, n, draws) && h[n] == a[..n]
  {
    for i := 0 to n
      invariant a[..n] == Shuffled(n, draws[..i])
      invariant a[n..] == old(a[n..])
    {
      var before := a[..n];
      var idx := draws[i];
      var tmp := a[i];
      a[i] := a[idx];
      a[idx] := tmp;
      assert a[..n] == Swap(before, i, idx);
      assert draws[..i + 1][..i] == draws[..i];
    }
    assert draws[..n] == draws;
    h := ShuffledExchanges(n, draws);
  }

  method LinkInOrder(next: array<nat>, order: array<nat>, n: nat)
    requires 1 <= n <= next.Length && n <= order.Length && next != order
    requires IsPermutation(order[..n])
    modifies next
    ensures LinksCycle(next[..], order[..n])
    ensures next[n..] == old(next[n..])
  {
    ghost var p := order[..n];
    var i := 0;
    while i < n - 1
      invariant 0 <= i <= n - 1
      invariant forall k | 0 <= k < i :: next[p[k]] == p[k + 1]
      invariant next[n..] == old(next[n..])
    {
      assert order[i] == p[i] && order[i + 1] == p[i + 1];
      next[order[i]] := order[i + 1];
      i := i + 1;
    }
    assert order[i] == p[i] && order[0] == p[0];
    next[order[i]] := order[0];
  }

  // ---------------------------------------------------------------- the timed walk

  /** The positions visited by a walk of m positions that starts at element 0. */
  ghost function Trail(next: seq<nat>, n: nat, m: nat): (t: seq<nat>)
    requires 0 < n <= |next| && forall u | 0 <= u < n :: next[u] < n
    ensures |t| == m && forall k | 0 <= k < m :: t[k] == Walk(next, n, 0, k)
  {
    if m == 0 then [] else Trail(next, n, m - 1) + [Walk(next, n, 0, m - 1)]
  }

  /** Every one of the n elements, and nothing else, is visited floor(|t|/n) or ceil(|t|/n) times. */
  ghost predicate Balanced(t: seq<nat>, n: nat)
    requires n > 0
  {
    && (forall k | 0 <= k < |t| :: t[k] < n)
    && (forall v: nat | v < n :: Fair(t, n, v))
  }

  ghost predicate Fair(t: seq<nat>, n: nat, v: nat)
    requires n > 0
  {
    |t| / n <= multiset(t)[v] <= (|t| + n - 1) / n
  }

  /** The number of times a walk of m positions from place j0 stands on place jv. */
  ghost function Hits(j0: nat, jv: nat, m: nat, n: nat): nat
    requires j0 < n && jv < n
  {
    if m == 0 then 0
    else Hits(j0, jv, m - 1, n) + if Place(j0, m - 1, n) == jv then 1 else 0
  }

  /** Place jv is met first after r links, then every n links. */
  lemma {:induction false} HitsAreBalanced(j0: nat, jv: nat, m: nat, n: nat)
    requires j0 < n && jv < n
    ensures m / n <= Hits(j0, jv, m, n) <= (m + n - 1) / n
  {
    var r := if jv >= j0 then jv - j0 else jv + n - j0;
    HitsCount(j0, jv, r, m, n);
    DivMonotone(m, m + n - 1 - r, n);
    DivMonotone(m + n - 1 - r, m + n - 1, n);
  }

  lemma {:induction false} HitsCount(j0: nat, jv: nat, r: nat, m: nat, n: nat)
    requires j0 < n && jv < n && r == if jv >= j0 then jv - j0 else jv + n - j0
    ensures Hits(j0, jv, m, n) == (m + n - 1 - r) / n
  {
    if m == 0 {
      ModUnique(n - 1 - r, 0, n - 1 - r, n);
    } else {
      HitsCount(j0, jv, r, m - 1, n);
      PlaceIsModular(j0, m - 1, n);
      MeetsAt(j0, jv, r, m - 1, n);
      DivStep(m - 1, r, n);
    }
  }

  lemma DivStep(m: nat, r: nat, n: nat)
    requires r < n
    ensures (m + n - r) / n == (m + n - 1 - r) / n + if m % n == r then 1 else 0
  {
    var q, s := Split(m, n);
    assert (q + 1) * n == q * n + n;
    if s > r {
      ModUnique(m + n - 1 - r, q + 1, s - 1 - r, n);
      ModUnique(m + n - r, q + 1, s - r, n);
    } else if s == r {
      ModUnique(m + n - 1 - r, q, n - 1, n);
      ModUnique(m + n - r, q + 1, 0, n);
    } else {
      ModUnique(m + n - 1 - r, q, s + n - 1 - r, n);
      ModUnique(m + n - r, q, s + n - r, n);
    }
  }

  lemma MeetsAt(j0: nat, jv: nat, r: nat, k: nat, n: nat)
    requires j0 < n && jv < n && r == if jv >= j0 then jv - j0 else jv + n - j0
    ensures (j0 + k) % n == jv <==> k % n == r
  {
    var q, s := Split(k, n);
    if j0 + s < n {
      ModUnique(j0 + k, q, j0 + s, n);
    } else {
      assert (q + 1) * n == q * n + n;
      ModUnique(j0 + k, q + 1, j0 + s - n, n);
    }
  }

  lemma {:induction false} CountVisits(next: seq<nat>, order: seq<nat>, j0: nat, jv: nat, m: nat)
    requires LinksCycle(next, order) && j0 < |order| && jv < |order| && order[j0] == 0
    requires forall u | 0 <= u < |order| :: next[u] < |order|
    ensures multiset(Trail(next, |order|, m))[order[jv]] == Hits(j0, jv, m, |order|)
  {
    if m > 0 {
      CountVisits(next, order, j0, jv, m - 1);
      WalkVisitsPlaces(next, order, j0, m - 1);
    }
  }

  lemma VisitsAreBalanced(next: seq<nat>, order: seq<nat>, j0: nat, v: nat, m: nat)
    requires LinksCycle(next, order) && j0 < |order| && order[j0] == 0 && v < |order|
    requires forall u | 0 <= u < |order| :: next[u] < |order|
    ensures Fair(Trail(next, |order|, m), |order|, v)
  {
    var jv := PermutationHits(order, v);
    CountVisits(next, order, j0, jv, m);
    HitsAreBalanced(j0, jv, m, |order|);
  }

  lemma TrailIsBalanced(next: seq<nat>, order: seq<nat>, m: nat)
    requires LinksCycle(next, order)
    requires forall u | 0 <= u < |order| :: next[u] < |order|
    ensures Balanced(Trail(next, |order|, m), |order|)
  {
    var j0 := PermutationHits(order, 0);
    forall v: nat | v < |order|
      ensures Fair(Trail(next, |order|, m), |order|, v)
    {
      VisitsAreBalanced(next, order, j0, v, m);
    }
  }

  /** measurement: `start` and `end` are the two clock readings; `trail` lists the elements whose
      pointer p stood on. */
  method Measurement(next: array<nat>, jumps: nat, ghost order: seq<nat>, start: nat, end: nat)
    returns (ticksPerJump: nat, trail: seq<nat>)
    requires jumps >= 1 && LinksCycle(next[..], order)
    ensures |trail| == jumps && trail[0] == 0
    ensures forall k | 0 <= k < jumps - 1 :: trail[k] < next.Length && trail[k + 1] == next[trail[k]]
    ensures Balanced(trail, |order|)
    ensures ticksPerJump == (end - start) % 0x1_0000_0000 / jumps
  {
    CycleStaysInside(next[..], order);
    var counter := jumps;
    var p := 0;
    trail := [p];
    counter := counter - 1;
    while counter != 0
      invariant 0 <= counter && |trail| == jumps - counter
      invariant trail == Trail(next[..], |order|, |trail|)
      invariant p == Walk(next[..], |order|, 0, |trail| - 1)
    {
      p := next[p];
      trail := trail + [p];
      counter := counter - 1;
    }
    TrailIsBalanced(next[..], order, jumps);
    ticksPerJump := (end - start) % 0x1_0000_0000 / jumps;
  }

  /** The walk starts at element 0 and goes round the given order. */
  ghost predicate Follows(trail: seq<nat>, order: seq<nat>) {
    exists j :: 0 <= j < |order| && FollowsFrom(trail, order, j)
  }

  ghost predicate FollowsFrom(trail: seq<nat>, order: seq<nat>, j: nat)
    requires j < |order|
  {
    order[j] == 0 && forall k | 0 <= k < |trail| :: trail[k] == order[(j + k) % |order|]
  }

  lemma TrailFollows(next: seq<nat>, order: seq<nat>, trail: seq<nat>)
    requires LinksCycle(next, order) && |trail| > 0 && trail[0] == 0
    requires forall k | 0 <= k < |trail| - 1 :: trail[k] < |next| && trail[k + 1] == next[trail[k]]
    ensures Follows(trail, order)
  {
    CycleStaysInside(next, order);
    var j := PermutationHits(order, 0);
    forall k | 0 <= k < |trail|
      ensures trail[k] == order[(j + k) % |order|]
    {
      TrailIsWalk(next, order, trail, k);
      WalkAlongCycle(next, order, j, k);
    }
    assert FollowsFrom(trail, order, j);
  }

  lemma {:induction false} TrailIsWalk(next: seq<nat>, order: seq<nat>, trail: seq<nat>, k: nat)
    requires LinksCycle(next, order) && k < |trail| && trail[0] == 0
    requires forall u | 0 <= u < |order| :: next[u] < |order|
    requires forall k | 0 <= k < |trail| - 1 :: trail[k] < |next| && trail[k + 1] == next[trail[k]]
    ensures trail[k] == Walk(next, |order|, 0, k)
  {
    if k > 0 {
      TrailIsWalk(next, order, trail, k - 1);
    }
  }

  /** One turn of the loop of measureCache: link the first n elements, then walk. */
  method MeasureSize(mode: int, jumps: nat, n: nat, next: array<nat>, randomIndexes: array<nat>,
                     draws: seq<nat>, clock: (nat, nat))
    returns (ticksPerJump: nat, trail: seq<nat>)
    requires mode == SEQUENTIAL || mode == RANDOM
    requires jumps >= 1 && 1 <= n <= next.Length && n <= randomIndexes.Length && next != randomIndexes
    requires |draws| == n && InRange(draws, n)
    modifies next, randomIndexes
    ensures |trail| == jumps && Balanced(trail, n)
    ensures mode == SEQUENTIAL ==> Follows(trail, Iota(n))
    ensures mode == RANDOM ==> Follows(trail, Shuffled(n, draws))
    ensures ticksPerJump == (clock.1 - clock.0) % 0x1_0000_0000 / jumps
    ensures next[n..] == old(next[n..]) && randomIndexes[n..] == old(randomIndexes[n..])
  {
    if mode == SEQUENTIAL {
      SeqArray(next, n);
      ticksPerJump, trail := Measurement(next, jumps, Iota(n), clock.0, clock.1);
      TrailFollows(next[..], Iota(n), trail);
    } else {
      ghost var h := RanArray(next, randomIndexes, n, draws);
      ticksPerJump, trail := Measurement(next, jumps, randomIndexes[..n], clock.0, clock.1);
      TrailFollows(next[..], randomIndexes[..n], trail);
    }
  }

  /** A walk of `jumps` positions, evenly over n elements, in the order of its mode. */
  ghost predicate IsMeasuredWalk(trail: seq<nat>, mode: int, n: nat, draws: seq<nat>, jumps: nat)
    requires n > 0 && |draws| == n && InRange(draws, n)
  {
    && |trail| == jumps && Balanced(trail, n)
    && (mode == SEQUENTIAL ==> Follows(trail, Iota(n)))
    && (mode == RANDOM ==> Follows(trail, Shuffled(n, draws)))
  }

  /** All recorded walks, each over its own number of elements. */
  ghost predicate AreWalks(trails: seq<seq<nat>>, mode: int, draws: seq<seq<nat>>, jumps: nat)
    requires |trails| <= |draws| && AreDraws(draws)
  {
    if trails == [] then true
    else
      var m := |trails| - 1;
      && IsMeasuredWalk(trails[m], mode, FIRST_SIZE * Pow2(m), draws[m], jumps)
      && AreWalks(trails[..m], mode, draws, jumps)
  }

  /** The random numbers of the shuffles of 256, 512, ... elements. */
  ghost predicate AreDraws(draws: seq<seq<nat>>) {
    forall k | 0 <= k < |draws| ::
      |draws[k]| == FIRST_SIZE * Pow2(k) && InRange(draws[k], FIRST_SIZE * Pow2(k))
  }

  /** The ticks per jump of each measurement. */
  function Results(clocks: seq<(nat, nat)>, jumps: nat): (results: seq<nat>)
    requires jumps >= 1
    ensures |results| == |clocks|
    ensures forall k | 0 <= k < |clocks| :: results[k] == (clocks[k].1 - clocks[k].0) % 0x1_0000_0000 / jumps
  {
    seq(|clocks|, k requires 0 <= k < |clocks| => (clocks[k].1 - clocks[k].0) % 0x1_0000_0000 / jumps)
  }

  /** measureCache: one measurement for each size 256, 512, ... up to the length of the array. draws[k]
      holds the random numbers of the k-th shuffle; clocks[k] its two clock readings. results are the
      printed numbers of ticks. */
  method MeasureCache(mode: int, jumps: nat, next: array<nat>, randomIndexes: array<nat>,
                      draws: seq<seq<nat>>, clocks: seq<(nat, nat)>)
    returns (trails: seq<seq<nat>>, results: seq<nat>)
    requires jumps >= 1 && next != randomIndexes && randomIndexes.Length == next.Length
    requires next.Length < FIRST_SIZE * Pow2(|clocks|) && |draws| == |clocks| && AreDraws(draws)
    modifies next, randomIndexes
    ensures mode != SEQUENTIAL && mode != RANDOM ==> trails == []
    ensures mode == SEQUENTIAL || mode == RANDOM ==> FIRST_SIZE * Pow2(|trails|) > next.Length
    ensures |trails| > 0 ==> FIRST_SIZE * Pow2(|trails| - 1) <= next.Length
    ensures |trails| == |results| <= |clocks|
    ensures AreWalks(trails, mode, draws, jumps) && results <= Results(clocks, jumps)
  {
    trails, results := [], [];
    var i := FIRST_SIZE;
    while i <= next.Length
      invariant i == FIRST_SIZE * Pow2(|trails|) && |trails| == |results| <= |clocks|
      invariant mode != SEQUENTIAL && mode != RANDOM ==> trails == []
      invariant |trails| > 0 ==> FIRST_SIZE * Pow2(|trails| - 1) <= next.Length
      invariant AreWalks(trails, mode, draws, jumps) && results <= Results(clocks, jumps)
      decreases next.Length - i
    {
      if mode != SEQUENTIAL && mode != RANDOM {
        return;
      }
      var round := |trails|;
      var ticks, trail := MeasureSize(mode, jumps, i, next, randomIndexes, draws[round], clocks[round]);
      assert (trails + [trail])[..round] == trails;
      trails, results := trails + [trail], results + [ticks];
      i := i * 2;
    }
  }
}
