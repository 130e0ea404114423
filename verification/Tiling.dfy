/** Exactly which new summaries keep a chain of ranges tiled. */
module Tiling {
  import opened Prelude
  import opened SessionLog

  /** `t` is where some tile starts or the last one ends. */
  predicate Boundary(chain: seq<Record>, t: real)
    requires forall r <- chain :: r.Summary?
  {
    t == 0.0 || exists r <- chain :: r.until == t
  }

  /**
   What can be checked just before a summary is written: its range is not empty, it starts at a
   boundary of the live chain, and it ends at one or beyond the seam.
   */
  predicate Fits(chain: seq<Record>, s: Record)
    requires SortedByUntil(chain)
  {
    s.Summary? && s.from < s.until && Boundary(chain, s.from) &&
    (Boundary(chain, s.until) || Seam(chain) < s.until)
  }

  /** A boundary is the start of some tile, or of the one after the last. */
  lemma BoundaryAt(chain: seq<Record>, t: real) returns (i: nat)
    requires Tiles(chain) && Boundary(chain, t)
    ensures i <= |chain| && Start(chain, i) == t
  {
    i := 0;
    if t != 0.0 {
      var r :| r in chain && r.until == t;
      var k :| 0 <= k < |chain| && chain[k] == r;
      i := k + 1;
    }
  }

  lemma StartsAscend(chain: seq<Record>, i: nat, j: nat)
    requires Tiles(chain) && j < i <= |chain|
    ensures Start(chain, j) < Start(chain, i)
  {
    if j < i - 1 { TilesOrdered(chain, j, i - 1); }
  }

  lemma FitsSpans(chain: seq<Record>, s: Record) returns (i: nat, j: nat)
    requires Tiles(chain) && SortedByUntil(chain) && Fits(chain, s)
    ensures Spans(chain, s, i, j)
  {
    i := BoundaryAt(chain, s.from);
    j := |chain|;
    if Boundary(chain, s.until) {
      j := BoundaryAt(chain, s.until);
      if j < i { StartsAscend(chain, i, j); }
    } else if i < |chain| {
      StartsAscend(chain, |chain|, i);
    }
  }

  /** In a tiled chain every tile other than the first starts where another one ends. */
  lemma NeighboursBound(next: seq<Record>, chain: seq<Record>, k: nat)
    requires Tiles(next) && Tiles(chain) && k < |next|
    requires forall i :: 0 <= i < |next| && i != k ==> next[i] in chain
    ensures Boundary(chain, next[k].from)
    ensures k + 1 < |next| ==> Boundary(chain, next[k].until)
  {
    if k > 0 { assert next[k - 1].until == next[k].from; }
    if k + 1 < |next| {
      assert next[k + 1] in chain;
      var i :| 0 <= i < |chain| && chain[i] == next[k + 1];
      if i > 0 { assert chain[i - 1].until == chain[i].from; }
    }
  }

  /** The live ranges after writing `s` are those it does not contain, and its own. */
  lemma NextMembers(log: seq<Record>, s: Record, peer: string) returns (k: nat)
    requires SummaryFor(s, peer) && Tiles(Chain(log + [s], peer))
    ensures var (chain, next) := (Chain(log, peer), Chain(log + [s], peer));
      k < |next| && next[k] == s &&
      (forall i :: 0 <= i < |next| && i != k ==> next[i] in chain) &&
      (forall r <- chain :: !Contains(s, r) ==> r in next)
  {
    var chain, next := Chain(log, peer), Chain(log + [s], peer);
    var rest := Drop(chain, s);
    ChainMembers(log, s, peer);
    assert s in multiset(next);
    k :| 0 <= k < |next| && next[k] == s;
    TilesStrict(next);
    forall i | 0 <= i < |next| && i != k ensures next[i] in chain {
      assert next[i] in multiset(next) && next[i] != s;
      DropMultiset(chain, s, next[i]);
      assert next[i] in multiset(chain);
    }
    forall r <- chain ensures !Contains(s, r) ==> r in next {
      DropMultiset(chain, s, r);
      assert r in multiset(chain);
      assert !Contains(s, r) ==> r in multiset(next);
    }
  }

  /** Only a summary that fits keeps the tiling. */
  lemma TiledMeansFits(log: seq<Record>, s: Record, peer: string)
    requires SummaryFor(s, peer) && Tiles(Chain(log, peer)) && Tiles(Chain(log + [s], peer))
    ensures Fits(Chain(log, peer), s)
  {
    var chain, next := Chain(log, peer), Chain(log + [s], peer);
    var k := NextMembers(log, s, peer);
    NeighboursBound(next, chain, k);
    if k + 1 == |next| && chain != [] {
      var last := chain[|chain| - 1];
      assert last in chain;
      if !Contains(s, last) {
        var i :| 0 <= i < |next| && next[i] == last;
        assert last.until <= s.until;
      }
      assert Seam(chain) <= s.until;
      assert last.until == Seam(chain);
    }
  }

  /** The exact condition: a written summary keeps the tiling if and only if it fitted the chain. */
  lemma CommitTilesIff(log: seq<Record>, s: Record, peer: string)
    requires SummaryFor(s, peer) && Tiles(Chain(log, peer))
    ensures Tiles(Chain(log + [s], peer)) <==> Fits(Chain(log, peer), s)
  {
    if Fits(Chain(log, peer), s) {
      var i, j := FitsSpans(Chain(log, peer), s);
      ChainInsert(log, s, peer, i, j);
    } else if Tiles(Chain(log + [s], peer)) {
      TiledMeansFits(log, s, peer);
    }
  }
}
