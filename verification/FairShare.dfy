/** Integer max-min fair split of a character budget over messages. */
module FairShare {
  import opened Prelude

  function Sum(xs: seq<nat>): nat {
    if xs == [] then 0 else xs[0] + Sum(xs[1..])
  }

  /** The sum of the parts of `xs` below water level `t`. */
  function SumBelow(xs: seq<nat>, t: nat): nat {
    if xs == [] then 0 else Min(xs[0], t) + SumBelow(xs[1..], t)
  }

  // ------------------------------------------------------------- the order

  /** Position `i` comes before `j` in a stable sort by size. */
  predicate Precedes(sizes: seq<nat>, i: nat, j: nat)
    requires i < |sizes| && j < |sizes|
  {
    sizes[i] < sizes[j] || (sizes[i] == sizes[j] && i < j)
  }

  ghost predicate IndicesOf(order: seq<nat>, n: nat) {
    forall a :: 0 <= a < |order| ==> order[a] < n
  }

  ghost predicate SortedOrder(sizes: seq<nat>, order: seq<nat>) {
    IndicesOf(order, |sizes|) &&
    forall a, b :: 0 <= a < b < |order| ==> Precedes(sizes, order[a], order[b])
  }

  /** Insert position `i`, larger than all in `order`, behind its equals. */
  function InsertIndex(sizes: seq<nat>, order: seq<nat>, i: nat): (out: seq<nat>)
    requires SortedOrder(sizes, order) && i < |sizes| && IndicesOf(order, i)
    ensures |out| == |order| + 1 && IndicesOf(out, |sizes|) && (forall j :: j in out <==> j in order || j == i)
    ensures SortedOrder(sizes, out)
  {
    var n := |order|;
    if n == 0 || sizes[order[n - 1]] <= sizes[i] then order + [i]
    else
      var front := InsertIndex(sizes, order[..n - 1], i);
      InsertedBeforeLast(sizes, order, i, front);
      front + [order[n - 1]]
  }

  lemma InsertedBeforeLast(sizes: seq<nat>, order: seq<nat>, i: nat, front: seq<nat>)
    requires SortedOrder(sizes, order) && order != [] && i < |sizes| && IndicesOf(front, |sizes|)
    requires sizes[i] < sizes[order[|order| - 1]]
    requires forall j :: j in front <==> j in order[..|order| - 1] || j == i
    ensures forall a :: 0 <= a < |front| ==> Precedes(sizes, front[a], order[|order| - 1])
  {
    forall a | 0 <= a < |front| ensures Precedes(sizes, front[a], order[|order| - 1]) {
      assert front[a] in front;
      if front[a] != i {
        var b :| 0 <= b < |order| - 1 && order[b] == front[a];
      }
    }
  }

  /** Python's `sorted(range(n), key=sizes.__getitem__)`. */
  function SortedIndices(sizes: seq<nat>, n: nat): (order: seq<nat>)
    requires n <= |sizes|
    ensures |order| == n && IndicesOf(order, n) && (forall j :: j in order <==> 0 <= j < n)
    ensures SortedOrder(sizes, order)
  {
    if n == 0 then []
    else
      var order := InsertIndex(sizes, SortedIndices(sizes, n - 1), n - 1);
      assert forall a :: 0 <= a < n ==> order[a] in order;
      order
  }

  function SizesInOrder(sizes: seq<nat>, order: seq<nat>): (s: seq<nat>)
    requires IndicesOf(order, |sizes|)
    ensures |s| == |order| && forall a :: 0 <= a < |s| ==> s[a] == sizes[order[a]]
  {
    seq(|order|, a requires 0 <= a < |order| => sizes[order[a]])
  }

  // -------------------------------------------- shares along the sorted order

  ghost predicate Ascending(s: seq<nat>) {
    forall a, b :: 0 <= a < b < |s| ==> s[a] <= s[b]
  }

  /** Smallest first: each takes at most an equal share of what is left. */
  ghost function Shares(s: seq<nat>, remaining: nat): (r: seq<nat>)
    ensures |r| == |s|
  {
    if s == [] then []
    else
      var share := Min(s[0], remaining / |s|);
      ShareFits(remaining, |s|);
      [share] + Shares(s[1..], remaining - share)
  }

  lemma DivBounds(x: nat, d: nat)
    requires d > 0
    ensures (x / d) * d <= x < (x / d) * d + d
  {
  }

  lemma MulMono(a: nat, b: nat, d: nat)
    requires a <= b
    ensures a * d <= b * d
  {
  }

  lemma MulSucc(a: nat, b: nat)
    ensures (a + 1) * b == a * b + b && a * (b + 1) == a * b + a
  {
  }

  lemma ShareFits(remaining: nat, count: nat)
    requires count > 0
    ensures remaining / count <= remaining
  {
    DivBounds(remaining, count);
    var q := remaining / count;
    assert q * count == q * (count - 1) + q by { MulSucc(q, count - 1); }
    MulMono(0, q, count - 1);
  }

  lemma DivLower(x: nat, d: nat, q: nat)
    requires d > 0 && q * d <= x
    ensures q <= x / d
  {
    DivBounds(x, d);
    if x / d < q {
      MulMono(x / d + 1, q, d);
      MulSucc(x / d, d);
    }
  }

  lemma DivUpper(x: nat, d: nat, q: nat)
    requires d > 0 && x < (q + 1) * d
    ensures x / d <= q
  {
    DivBounds(x, d);
    if q < x / d { MulMono(q + 1, x / d, d); }
  }

  /** Taking at most the level never lowers the level of those still to come. */
  lemma LevelRises(remaining: nat, count: nat, share: nat)
    requires count > 1 && share <= remaining / count
    ensures share <= remaining && remaining / count <= (remaining - share) / (count - 1)
  {
    ShareFits(remaining, count);
    var level := remaining / count;
    DivBounds(remaining, count);
    MulSucc(level, count - 1);
    DivLower(remaining - share, count - 1, level);
  }

  /** Nobody gets more than their size; nobody who could take it gets less than the level. */
  lemma {:induction false} SharesBounds(s: seq<nat>, remaining: nat, level: nat)
    requires Ascending(s) && (s != [] ==> level <= remaining / |s|)
    ensures forall a :: 0 <= a < |s| ==> Min(s[a], level) <= Shares(s, remaining)[a] <= s[a]
  {
    if s != [] {
      var share := Min(s[0], remaining / |s|);
      if |s| > 1 {
        LevelRises(remaining, |s|, share);
      }
      ShareFits(remaining, |s|);
      SharesBounds(s[1..], remaining - share, level);
    }
  }

  lemma {:induction false} SharesWithin(s: seq<nat>, remaining: nat)
    ensures Sum(Shares(s, remaining)) <= remaining
  {
    if s != [] {
      ShareFits(remaining, |s|);
      var share := Min(s[0], remaining / |s|);
      SharesWithin(s[1..], remaining - share);
      assert Shares(s, remaining)[1..] == Shares(s[1..], remaining - share);
    }
  }

  /** With at most `t` for each, nobody gets more than `t`. */
  lemma {:induction false} SharesCeiling(s: seq<nat>, remaining: nat, t: nat)
    requires forall a :: 0 <= a < |s| ==> t <= s[a]
    requires remaining <= t * |s|
    ensures forall a :: 0 <= a < |s| ==> Shares(s, remaining)[a] <= t
    ensures Sum(Shares(s, remaining)) == remaining
  {
    if s != [] {
      var n := |s|;
      ShareFits(remaining, n);
      CeilingStep(remaining, n, t);
      SharesCeiling(s[1..], remaining - remaining / n, t);
    } else {
      assert t * 0 == 0;
    }
  }

  lemma CeilingStep(remaining: nat, n: nat, t: nat)
    requires n > 0 && remaining <= t * n
    ensures remaining / n <= t && remaining / n <= remaining && remaining - remaining / n <= t * (n - 1)
  {
    ShareFits(remaining, n);
    var level := remaining / n;
    DivBounds(remaining, n);
    MulSucc(t, n);
    DivUpper(remaining, n, t);
    MulSucc(t, n - 1);
    if level < t {
      MulSucc(level, n - 1);
      MulMono(level + 1, t, n - 1);
      MulSucc(level, n);
      MulSucc(level + 1, n - 1);
    }
  }

  /** The split along the order is fair: what is cut is within one of everything else. */
  lemma {:induction false} SharesFair(s: seq<nat>, remaining: nat)
    requires Ascending(s)
    ensures Ascending(Shares(s, remaining)) && CutWithinOne(s, Shares(s, remaining))
  {
    if s != [] {
      var share, rest := HeadAndRest(s, remaining);
      SharesFair(s[1..], remaining - share);
      RestJoins(s, remaining, share, rest);
    }
  }

  lemma RestJoins(s: seq<nat>, remaining: nat, share: nat, rest: seq<nat>)
    requires Ascending(s) && s != [] && |rest| == |s| - 1 && share == Min(s[0], remaining / |s|) <= remaining
    requires rest == Shares(s[1..], remaining - share) && Ascending(rest) && CutWithinOne(s[1..], rest)
    ensures Ascending([share] + rest) && CutWithinOne(s, [share] + rest)
  {
    RestFits(s, remaining);
    HeadJoins(s, rest, share, remaining / |s|);
  }

  /** Either everything fits or everything is spent. */
  lemma {:induction false} SharesSpend(s: seq<nat>, remaining: nat)
    requires Ascending(s)
    ensures Shares(s, remaining) == s || Sum(Shares(s, remaining)) == remaining
  {
    if s != [] {
      var share, rest := HeadAndRest(s, remaining);
      SharesSpend(s[1..], remaining - share);
      HeadSpends(s, rest, share, remaining);
    }
  }

  lemma HeadAndRest(s: seq<nat>, remaining: nat) returns (share: nat, rest: seq<nat>)
    requires Ascending(s) && s != []
    ensures share == Min(s[0], remaining / |s|) && share <= remaining && rest == Shares(s[1..], remaining - share)
    ensures Shares(s, remaining) == [share] + rest
    ensures share < s[0] ==> Sum(rest) == remaining - share
  {
    RestFits(s, remaining);
    share := Min(s[0], remaining / |s|);
    rest := Shares(s[1..], remaining - share);
  }

  lemma HeadSpends(s: seq<nat>, rest: seq<nat>, share: nat, remaining: nat)
    requires s != [] && share <= s[0] && share <= remaining
    requires share < s[0] ==> Sum(rest) == remaining - share
    requires rest == s[1..] || Sum(rest) == remaining - share
    ensures [share] + rest == s || Sum([share] + rest) == remaining
  {
    assert ([share] + rest)[1..] == rest;
    assert s == [s[0]] + s[1..];
  }

  /** The rest gets at least the first level where it can; and when the first is cut, at most one more,
      and everything. */
  lemma RestFits(s: seq<nat>, remaining: nat)
    requires Ascending(s) && s != []
    ensures
      var level := remaining / |s|;
      var share := Min(s[0], level);
      share <= remaining &&
      var rest := Shares(s[1..], remaining - share);
      (forall a :: 0 <= a < |rest| ==> Min(s[1..][a], level) <= rest[a] <= s[1..][a]) &&
      (share < s[0] ==> Sum(rest) == remaining - share && forall a :: 0 <= a < |rest| ==> rest[a] <= level + 1)
  {
    var n := |s|;
    var level := remaining / n;
    var share := Min(s[0], level);
    ShareFits(remaining, n);
    if n > 1 {
      LevelRises(remaining, n, share);
    }
    SharesBounds(s[1..], remaining - share, level);
    if share < s[0] {
      DivBounds(remaining, n);
      MulSucc(level, n - 1);
      SharesCeiling(s[1..], remaining - share, level + 1);
    }
  }

  ghost predicate CutWithinOne(s: seq<nat>, r: seq<nat>)
    requires |s| == |r|
  {
    forall a, b :: 0 <= a < |s| && 0 <= b < |s| && r[a] < s[a] ==> r[b] <= r[a] + 1
  }

  lemma HeadJoins(s: seq<nat>, rest: seq<nat>, share: nat, level: nat)
    requires Ascending(s) && s != [] && |rest| == |s| - 1 && share == Min(s[0], level)
    requires Ascending(rest) && CutWithinOne(s[1..], rest)
    requires forall a :: 0 <= a < |rest| ==> Min(s[1..][a], level) <= rest[a] <= s[1..][a]
    requires share < s[0] ==> forall a :: 0 <= a < |rest| ==> rest[a] <= level + 1
    ensures Ascending([share] + rest) && CutWithinOne(s, [share] + rest)
  {
    forall a | 0 <= a < |rest| ensures share <= rest[a] && (rest[a] < s[1..][a] ==> level <= rest[a]) {
      assert s[1..][a] == s[a + 1] && s[0] <= s[a + 1];
    }
    var r := [share] + rest;
    forall a, b | 0 <= a < |s| && 0 <= b < |s| && r[a] < s[a] ensures r[b] <= r[a] + 1 {
      if a > 0 { assert rest[a - 1] < s[1..][a - 1]; }
    }
  }

  // ------------------------------------------------------------ the contract

  ghost predicate FollowsSizes(sizes: seq<nat>, shares: seq<nat>)
    requires |sizes| == |shares|
  {
    forall i, j :: 0 <= i < |sizes| && 0 <= j < |sizes| && Precedes(sizes, i, j) ==> shares[i] <= shares[j]
  }

  /**
   The fair split: no message gets more than it has; the budget is spent unless everything
   fits; a cut message is within one of every other; and shares follow the order of sizes,
   a remainder going to the later of two equals.
   */
  ghost predicate FairShares(sizes: seq<nat>, budget: int, shares: seq<nat>) {
    |shares| == |sizes| &&
    (forall i :: 0 <= i < |sizes| ==> shares[i] <= sizes[i]) &&
    Sum(shares) == Min(Max(0, budget), Sum(sizes)) &&
    CutWithinOne(sizes, shares) &&
    FollowsSizes(sizes, shares)
  }

  /** The first k positions of the order hold their shares; the rest is unspent. */
  ghost predicate Granted(order: seq<nat>, s: seq<nat>, all: seq<nat>, shares: seq<nat>, remaining: nat,
                          budget: int, k: nat)
    requires |order| == |s| == |all| && k <= |s|
  {
    |shares| == |s| &&
    Sum(shares) + remaining == Max(0, budget) &&
    all[k..] == Shares(s[k..], remaining) &&
    Sum(shares) + Sum(all[k..]) == Sum(all) &&
    forall a :: 0 <= a < |order| ==> order[a] < |s| && shares[order[a]] == if a < k then all[a] else 0
  }

  lemma GrantNext(sizes: seq<nat>, order: seq<nat>, s: seq<nat>, all: seq<nat>, shares: seq<nat>,
                  remaining: nat, budget: int, k: nat, share: nat)
    requires |sizes| == |order| == |s| == |all| && k < |s| && SortedOrder(sizes, order)
    requires s[k] == sizes[order[k]] && share == Min(s[k], remaining / (|s| - k))
    requires Granted(order, s, all, shares, remaining, budget, k)
    ensures share <= remaining
    ensures Granted(order, s, all, shares[order[k] := share], remaining - share, budget, k + 1)
  {
    SharesStep(s, k, all, remaining);
    SumUpdate(shares, order[k], share);
    OtherPositions(sizes, order, k);
  }

  lemma NothingGranted(order: seq<nat>, s: seq<nat>, all: seq<nat>, shares: seq<nat>, remaining: nat, budget: int)
    requires |order| == |s| && IndicesOf(order, |s|) && shares == seq(|s|, _ => 0)
    requires remaining == Max(0, budget) && all == Shares(s, remaining)
    ensures Granted(order, s, all, shares, remaining, budget, 0)
  {
    SumZero(|s|);
    assert s[0..] == s && all[0..] == all;
  }

  lemma AllGranted(sizes: seq<nat>, order: seq<nat>, s: seq<nat>, all: seq<nat>, shares: seq<nat>,
                   remaining: nat, budget: int)
    requires |sizes| == |order| == |s| == |all| && SortedOrder(sizes, order)
    requires s == SizesInOrder(sizes, order) && all == Shares(s, Max(0, budget))
    requires forall i :: 0 <= i < |sizes| ==> i in order
    requires Granted(order, s, all, shares, remaining, budget, |s|)
    ensures FairShares(sizes, budget, shares)
  {
    assert Sum(all[|s|..]) == 0;
    SharesToFair(sizes, budget, order, shares, all);
  }

  /** Smallest first, each gets the level or its size, and the level is taken anew. */
  method GrantInOrder(sizes: seq<nat>, order: seq<nat>, budget: int, ghost s: seq<nat>, ghost all: seq<nat>)
    returns (shares: seq<nat>, ghost remaining: nat)
    requires |order| == |sizes| == |s| == |all| && SortedOrder(sizes, order)
    requires s == SizesInOrder(sizes, order) && all == Shares(s, Max(0, budget))
    ensures Granted(order, s, all, shares, remaining, budget, |s|)
  {
    var n := |sizes|;
    shares := seq(n, _ => 0);
    var left, count := Max(0, budget), n;
    NothingGranted(order, s, all, shares, left, budget);
    for k := 0 to n
      invariant count == n - k && left >= 0
      invariant Granted(order, s, all, shares, left, budget, k)
    {
      var i := order[k];
      var share := Min(sizes[i], left / count);
      GrantNext(sizes, order, s, all, shares, left, budget, k, share);
      shares := shares[i := share];
      left := left - share;
      count := count - 1;
    }
    remaining := left;
  }

  method FairCharAllocations(sizes: seq<nat>, budget: int) returns (shares: seq<nat>)
    ensures FairShares(sizes, budget, shares)
  {
    var order := SortedIndices(sizes, |sizes|);
    ghost var s := SizesInOrder(sizes, order);
    ghost var all := Shares(s, Max(0, budget));
    ghost var remaining;
    shares, remaining := GrantInOrder(sizes, order, budget, s, all);
    AllGranted(sizes, order, s, all, shares, remaining, budget);
  }

  lemma SharesStep(s: seq<nat>, k: nat, all: seq<nat>, remaining: nat)
    requires k < |s| == |all| && all[k..] == Shares(s[k..], remaining)
    ensures all[k] == Min(s[k], remaining / (|s| - k)) <= remaining
    ensures all[k + 1..] == Shares(s[k + 1..], remaining - all[k])
    ensures Sum(all[k..]) == all[k] + Sum(all[k + 1..])
  {
    assert s[k..][1..] == s[k + 1..] && all[k..][1..] == all[k + 1..];
    ShareFits(remaining, |s| - k);
    assert all[k..][0] == all[k];
  }

  lemma OtherPositions(sizes: seq<nat>, order: seq<nat>, k: nat)
    requires SortedOrder(sizes, order) && k < |order|
    ensures forall a :: 0 <= a < |order| && a != k ==> order[a] != order[k]
  {
    forall a | 0 <= a < |order| && a != k ensures order[a] != order[k] {
      assert if a < k then Precedes(sizes, order[a], order[k]) else Precedes(sizes, order[k], order[a]);
    }
  }

  lemma SharesToFair(sizes: seq<nat>, budget: int, order: seq<nat>, shares: seq<nat>, all: seq<nat>)
    requires |all| == |shares| == |sizes| == |order| && SortedOrder(sizes, order)
    requires forall i :: 0 <= i < |sizes| ==> i in order
    requires forall a :: 0 <= a < |order| ==> shares[order[a]] == all[a]
    requires Sum(shares) == Sum(all) && all == Shares(SizesInOrder(sizes, order), Max(0, budget))
    ensures FairShares(sizes, budget, shares)
  {
    var s, b := SizesInOrder(sizes, order), Max(0, budget);
    SharesBounds(s, b, 0);
    SharesWithin(s, b);
    SharesFair(s, b);
    SharesSpend(s, b);
    PairsFair(sizes, order, shares, all);
    TotalFair(sizes, order, shares, all, b);
  }

  lemma TotalFair(sizes: seq<nat>, order: seq<nat>, shares: seq<nat>, all: seq<nat>, b: nat)
    requires |all| == |shares| == |sizes| == |order| && IndicesOf(order, |sizes|)
    requires forall i :: 0 <= i < |sizes| ==> i in order && shares[i] <= sizes[i]
    requires forall a :: 0 <= a < |order| ==> shares[order[a]] == all[a]
    requires Sum(shares) <= b && (Sum(shares) == b || all == SizesInOrder(sizes, order))
    ensures Sum(shares) == Min(b, Sum(sizes))
  {
    SumMono(shares, sizes);
    if Sum(shares) != b {
      AllUncut(sizes, order, shares);
    }
  }

  lemma AllUncut(sizes: seq<nat>, order: seq<nat>, shares: seq<nat>)
    requires |shares| == |sizes| == |order| && IndicesOf(order, |sizes|) && forall i :: 0 <= i < |sizes| ==> i in order
    requires forall a :: 0 <= a < |order| ==> shares[order[a]] == sizes[order[a]]
    ensures shares == sizes
  {
    forall i | 0 <= i < |sizes| ensures shares[i] == sizes[i] {
      assert i in order;
    }
  }

  lemma PairsFair(sizes: seq<nat>, order: seq<nat>, shares: seq<nat>, all: seq<nat>)
    requires |all| == |shares| == |sizes| == |order| && SortedOrder(sizes, order)
    requires forall i :: 0 <= i < |sizes| ==> i in order
    requires forall a :: 0 <= a < |order| ==> shares[order[a]] == all[a] <= sizes[order[a]]
    requires Ascending(all) && CutWithinOne(SizesInOrder(sizes, order), all)
    ensures forall i :: 0 <= i < |sizes| ==> shares[i] <= sizes[i]
    ensures CutWithinOne(sizes, shares) && FollowsSizes(sizes, shares)
  {
    forall i, j | 0 <= i < |sizes| && 0 <= j < |sizes|
      ensures shares[i] <= sizes[i]
      ensures shares[i] < sizes[i] ==> shares[j] <= shares[i] + 1
      ensures Precedes(sizes, i, j) ==> shares[i] <= shares[j]
    {
      PairFair(sizes, order, shares, all, i, j);
    }
  }

  lemma PairFair(sizes: seq<nat>, order: seq<nat>, shares: seq<nat>, all: seq<nat>, i: nat, j: nat)
    requires |all| == |shares| == |sizes| == |order| && SortedOrder(sizes, order)
    requires i < |sizes| && j < |sizes| && i in order && j in order
    requires forall a :: 0 <= a < |order| ==> shares[order[a]] == all[a] <= sizes[order[a]]
    requires Ascending(all) && CutWithinOne(SizesInOrder(sizes, order), all)
    ensures shares[i] <= sizes[i]
    ensures shares[i] < sizes[i] ==> shares[j] <= shares[i] + 1
    ensures Precedes(sizes, i, j) ==> shares[i] <= shares[j]
    ensures all == SizesInOrder(sizes, order) ==> shares[i] == sizes[i]
  {
    var a :| 0 <= a < |order| && order[a] == i;
    var b :| 0 <= b < |order| && order[b] == j;
    if b < a { assert Precedes(sizes, order[b], order[a]); }
  }

  lemma SumZero(n: nat)
    ensures Sum(seq(n, _ => 0)) == 0
  {
    if n > 0 {
      assert seq(n, _ => 0)[1..] == seq(n - 1, _ => 0);
      SumZero(n - 1);
    }
  }

  lemma {:induction false} SumUpdate(xs: seq<nat>, i: nat, v: nat)
    requires i < |xs|
    ensures Sum(xs[i := v]) == Sum(xs) - xs[i] + v
  {
    if i > 0 {
      SumUpdate(xs[1..], i - 1, v);
      assert xs[i := v][1..] == xs[1..][i - 1 := v];
    } else {
      assert xs[i := v][1..] == xs[1..];
    }
  }

  lemma {:induction false} SumMono(xs: seq<nat>, ys: seq<nat>)
    requires |xs| == |ys| && forall i :: 0 <= i < |xs| ==> xs[i] <= ys[i]
    ensures Sum(xs) <= Sum(ys)
    ensures (exists i :: 0 <= i < |xs| && xs[i] < ys[i]) ==> Sum(xs) < Sum(ys)
  {
    if xs != [] {
      SumMono(xs[1..], ys[1..]);
      if i :| 0 <= i < |xs| && xs[i] < ys[i] {
        if i > 0 { assert xs[1..][i - 1] < ys[1..][i - 1]; }
      }
    }
  }

  // ---------------------------------------------------------- what fair means

  lemma {:induction false} SumCeiling(xs: seq<nat>, i: nat, t: nat)
    requires i < |xs| && forall j :: 0 <= j < |xs| ==> xs[j] <= t
    ensures Sum(xs) <= t * (|xs| - 1) + xs[i]
  {
    SumUpdate(xs, i, t);
    SumAtMost(xs[i := t], t);
    assert t * |xs| == t * (|xs| - 1) + t;
  }

  lemma {:induction false} SumAtMost(xs: seq<nat>, t: nat)
    requires forall j :: 0 <= j < |xs| ==> xs[j] <= t
    ensures Sum(xs) <= t * |xs|
  {
    if xs != [] {
      SumAtMost(xs[1..], t);
      assert t * |xs| == t * |xs[1..]| + t;
    } else {
      assert t * 0 == 0;
    }
  }

  /** A cut message never gets less than the equal share of the whole budget. */
  lemma CutGetsItsEqualShare(sizes: seq<nat>, budget: int, shares: seq<nat>, i: nat)
    requires FairShares(sizes, budget, shares) && i < |sizes| && shares[i] < sizes[i]
    ensures Max(0, budget) / |sizes| <= shares[i]
  {
    SumMono(shares, sizes);
    SumCeiling(shares, i, shares[i] + 1);
    MulSucc(shares[i] + 1, |sizes| - 1);
    DivUpper(Max(0, budget), |sizes|, shares[i]);
  }

  ghost predicate Feasible(sizes: seq<nat>, budget: int, alloc: seq<nat>) {
    |alloc| == |sizes| && Sum(alloc) <= Max(0, budget) && forall i :: 0 <= i < |sizes| ==> alloc[i] <= sizes[i]
  }

  lemma {:induction false} SomeLess(xs: seq<nat>, ys: seq<nat>, i: nat)
    requires |xs| == |ys| && i < |xs| && xs[i] > ys[i] && Sum(xs) <= Sum(ys)
    ensures exists j :: 0 <= j < |xs| && xs[j] < ys[j]
  {
    if forall j :: 0 <= j < |xs| ==> ys[j] <= xs[j] {
      SumMono(ys, xs);
    }
  }

  /** Max-min fairness: nobody can get more without taking from someone who has at most one more. */
  lemma MaxMinFair(sizes: seq<nat>, budget: int, shares: seq<nat>, alloc: seq<nat>, i: nat)
    requires FairShares(sizes, budget, shares) && Feasible(sizes, budget, alloc)
    requires i < |sizes| && alloc[i] > shares[i]
    ensures exists j :: 0 <= j < |sizes| && alloc[j] < shares[j] <= shares[i] + 1
  {
    SumMono(shares, sizes);
    SomeLess(alloc, shares, i);
  }

  lemma {:induction false} SumBelowMono(xs: seq<nat>, ys: seq<nat>, t: nat)
    requires |xs| == |ys| && forall i :: 0 <= i < |xs| ==> Min(xs[i], t) <= Min(ys[i], t)
    ensures SumBelow(xs, t) <= SumBelow(ys, t)
  {
    if xs != [] { SumBelowMono(xs[1..], ys[1..], t); }
  }

  lemma {:induction false} SumBelowAll(xs: seq<nat>, t: nat)
    ensures SumBelow(xs, t) <= Sum(xs)
    ensures (forall i :: 0 <= i < |xs| ==> xs[i] <= t) ==> SumBelow(xs, t) == Sum(xs)
  {
    if xs != [] { SumBelowAll(xs[1..], t); }
  }

  /**
   The strong form: at every water level the fair split fills at least as much as any
   feasible allocation does, so it is best for every concave measure of usefulness.
   */
  lemma FillsEveryLevel(sizes: seq<nat>, budget: int, shares: seq<nat>, alloc: seq<nat>, t: nat)
    requires FairShares(sizes, budget, shares) && Feasible(sizes, budget, alloc)
    ensures SumBelow(alloc, t) <= SumBelow(shares, t)
  {
    if i :| 0 <= i < |sizes| && shares[i] < sizes[i] && shares[i] < t {
      SumMono(shares, sizes);
      SumBelowAll(shares, t);
      SumBelowAll(alloc, t);
    } else {
      SumBelowMono(alloc, shares, t);
    }
  }
}
