/** The history seam: the last real user message, pulled back so no tool pair is split. */
module ToolPairs {
  import opened Prelude

  const SUMMARY_PREFIX := "[Previous conversation summary]: "

  /** The nearest assistant turn before index `k`, or -1. */
  function NearestCall(turns: seq<Turn>, k: nat): (j: int)
    requires k <= |turns|
    ensures -1 <= j < k
    ensures j >= 0 ==> turns[j].role == Assistant
    ensures forall i :: j < i < k ==> turns[i].role != Assistant
  {
    if k == 0 then -1 else if turns[k - 1].role == Assistant then k - 1 else NearestCall(turns, k - 1)
  }

  /** No tool result on the tail side of seam `s` answers a call on the summarized side. */
  ghost predicate PairsHeld(turns: seq<Turn>, s: nat) {
    forall k :: s <= k < |turns| && turns[k].role == Tool ==>
      NearestCall(turns, k) >= s || NearestCall(turns, k) == -1
  }

  /** The largest seam at or before `split` that holds every pair together. */
  ghost function Hold(turns: seq<Turn>, split: nat): (s: nat)
    requires split <= |turns|
    ensures s <= split && PairsHeld(turns, s)
    ensures forall r :: s < r <= split ==> !PairsHeld(turns, r)
  {
    if split == 0 || PairsHeld(turns, split) then split else Hold(turns, split - 1)
  }

  lemma {:induction false} HoldUnique(turns: seq<Turn>, split: nat, s: nat)
    requires s <= split <= |turns| && PairsHeld(turns, s)
    requires forall r :: s < r <= split ==> !PairsHeld(turns, r)
    ensures Hold(turns, split) == s
  {
    var h := Hold(turns, split);
    assert h >= s;
  }

  /** Only the first tool result of each round is looked at; that is enough. */
  method HoldToolPairs(turns: seq<Turn>, start: nat) returns (split: nat)
    requires start <= |turns|
    ensures split == Hold(turns, start)
  {
    split := start;
    while split > 0
      invariant split <= start
      invariant forall r :: split < r <= start ==> !PairsHeld(turns, r)
    {
      var result := split;
      while result < |turns| && turns[result].role != Tool
        invariant split <= result <= |turns|
        invariant forall k :: split <= k < result ==> turns[k].role != Tool
      {
        result := result + 1;
      }
      if result == |turns| {
        break;
      }
      var call := NearestCall(turns, result);
      if call == -1 || call >= split {
        LaterResultsFollow(turns, split, result);
        break;
      }
      split := call;
    }
    HoldUnique(turns, start, split);
  }

  lemma LaterResultsFollow(turns: seq<Turn>, split: nat, result: nat)
    requires split <= result < |turns| && turns[result].role == Tool
    requires forall k :: split <= k < result ==> turns[k].role != Tool
    requires NearestCall(turns, result) == -1 || NearestCall(turns, result) >= split
    ensures PairsHeld(turns, split)
  {
    forall k | split <= k < |turns| && turns[k].role == Tool
      ensures NearestCall(turns, k) >= split || NearestCall(turns, k) == -1
    {
      var j := NearestCall(turns, k);
      if 0 <= j < split {
        assert false;
      }
    }
  }

  predicate RealUser(t: Turn) {
    t.role == User && !(SUMMARY_PREFIX <= t.text)
  }

  function LastRealUser(turns: seq<Turn>): (i: int)
    ensures -1 <= i < |turns|
    ensures i >= 0 ==> RealUser(turns[i])
    ensures forall j :: i < j < |turns| ==> !RealUser(turns[j])
  {
    if turns == [] then -1
    else if RealUser(turns[|turns| - 1]) then |turns| - 1
    else LastRealUser(turns[..|turns| - 1])
  }

  ghost function SplitPoint(turns: seq<Turn>): (s: nat)
    ensures s <= |turns|
  {
    if LastRealUser(turns) == -1 then |turns| else Hold(turns, LastRealUser(turns))
  }

  /** Some user turn that is no summary head is at `i`, and none after it. */
  ghost predicate LastWordOfUser(turns: seq<Turn>, i: nat) {
    i < |turns| && turns[i].role == User && !(SUMMARY_PREFIX <= turns[i].text) &&
    forall j :: i < j < |turns| ==> turns[j].role != User || SUMMARY_PREFIX <= turns[j].text
  }

  method FindSplitPoint(turns: seq<Turn>) returns (s: nat)
    ensures s == SplitPoint(turns) <= |turns|
    ensures (forall i: nat :: !LastWordOfUser(turns, i)) ==> s == |turns|
    ensures forall i: nat :: LastWordOfUser(turns, i) ==>
      s <= i && PairsHeld(turns, s) && forall r :: s < r <= i ==> !PairsHeld(turns, r)
  {
    var i := |turns| - 1;
    while i >= 0
      invariant -1 <= i < |turns|
      invariant forall j :: i < j < |turns| ==> !RealUser(turns[j])
    {
      if RealUser(turns[i]) {
        s := HoldToolPairs(turns, i);
        assert LastWordOfUser(turns, i);
        return;
      }
      i := i - 1;
    }
    s := |turns|;
  }

  lemma NoToolsHeld(turns: seq<Turn>, i: nat)
    requires i <= |turns| && forall t <- turns :: t.role != Tool
    ensures Hold(turns, i) == i
  {
    HoldUnique(turns, i, i);
  }

  lemma TailStartsReal(turns: seq<Turn>, i: nat)
    requires LastRealUser(turns) == i < |turns|
    ensures LastRealUser(turns[i..]) == 0
  {
    var tail := turns[i..];
    assert RealUser(tail[0]);
    assert forall j :: 0 < j < |tail| ==> tail[j] == turns[i + j];
  }

  /** Without tool turns the seam is the last real user message itself, and cutting there is stable. */
  lemma SplitIsStable(turns: seq<Turn>)
    requires forall t <- turns :: t.role != Tool
    ensures SplitPoint(turns) == if LastRealUser(turns) == -1 then |turns| else LastRealUser(turns)
    ensures SplitPoint(turns[SplitPoint(turns)..]) == 0
  {
    var i := LastRealUser(turns);
    if i >= 0 {
      NoToolsHeld(turns, i);
      TailStartsReal(turns, i);
      NoToolsHeld(turns[i..], 0);
    }
  }
}
