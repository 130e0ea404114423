/** Compaction converges: one call bounds the chain, and a second call with no news writes nothing. */
module Convergence {
  import opened Prelude
  import opened SessionLog
  import opened ToolPairs
  import opened Compaction
  import opened Tiling
  import opened ChainRuns

  /** Neither the summarizer nor the fold was vetoed in this step. */
  ghost predicate Unvetoed(log: seq<Record>, peer: string, cap: nat, svc: Services, t0: real, t1: real, t2: real)
    requires cap >= 2
  {
    if Pre(log, peer) == [] then FoldUnvetoed(log, peer, cap, svc, t2)
    else
      var body := svc.summarize(t0, Pre(log, peer));
      body.Some? && FoldUnvetoed(log + [Compacted(log, peer, body.value, svc, t0, t1)], peer, cap, svc, t2)
  }

  predicate FoldUnvetoed(log: seq<Record>, peer: string, cap: nat, svc: Services, ts: real)
    requires cap >= 2
  {
    var folded := Oldest(Chain(log, peer), cap);
    folded != [] ==> svc.fold(ts, folded).Some?
  }

  /** Rows that are summaries add no entry. */
  lemma FoldKeepsEntries(log: seq<Record>, peer: string, cap: nat, svc: Services, ts: real)
    requires cap >= 2
    ensures Entries(FoldStep(log, peer, cap, svc, ts), peer) == Entries(log, peer)
  {
    var log' := FoldStep(log, peer, cap, svc, ts);
    if log' != log {
      EntriesAppend(log, log'[|log|], peer);
    }
  }

  /** A fold that is not vetoed leaves at most `cap` live summaries, exactly `cap` when it fires, and the same tail. */
  lemma FoldBounds(log: seq<Record>, peer: string, cap: nat, svc: Services, ts: real)
    requires WellFormed(log) && Later(log, ts) && cap >= 2 && FoldUnvetoed(log, peer, cap, svc, ts)
    ensures
      var log' := FoldStep(log, peer, cap, svc, ts);
      WellFormed(log') && |Chain(log', peer)| == Min(cap, |Chain(log, peer)|) &&
      RawConversation(log', peer) == RawConversation(log, peer)
  {
    FoldKeepsEntries(log, peer, cap, svc, ts);
    var folded := Oldest(Chain(log, peer), cap);
    if folded != [] {
      FoldReplaces(log, Epoch(folded, svc.fold(ts, folded).value, svc, peer, ts), |folded|);
    }
  }

  /** An uninterrupted compaction extends the chain by the range it summarized. */
  lemma CompactedExtends(log: seq<Record>, peer: string, body: string, svc: Services, t0: real, t1: real)
    requires WellFormed(log) && Later(log, t0) && t0 < t1 && Pre(log, peer) != []
    ensures
      var s := Compacted(log, peer, body, svc, t0, t1);
      Chain(log + [s], peer) == Chain(log, peer) + [s] && WellFormed(log + [s])
  {
    PartitionIsExact(log, peer, t0);
    CompactionExtends(log, Compacted(log, peer, body, svc, t0, t1));
  }

  /** After a compaction the verbatim thread is exactly the old suffix. */
  lemma TailAfterCompaction(log: seq<Record>, peer: string, body: string, svc: Services, t0: real, t1: real)
    requires WellFormed(log) && Later(log, t0) && t0 < t1 && Pre(log, peer) != []
    ensures
      var raw := RawConversation(log, peer);
      RawConversation(log + [Compacted(log, peer, body, svc, t0, t1)], peer) == raw[SplitPoint(raw)..]
  {
    var s := Compacted(log, peer, body, svc, t0, t1);
    CompactedExtends(log, peer, body, svc, t0, t1);
    PartitionIsExact(log, peer, t0);
    EntriesAppend(log, s, peer);
  }

  lemma StableTail(log: seq<Record>, peer: string, log': seq<Record>, now: real)
    requires Ticking(log) && Later(log, now)
    requires RawConversation(log', peer) == RawConversation(log, peer)[SplitPoint(RawConversation(log, peer))..]
    ensures Pre(log', peer) == []
  {
    FreshShape(log, peer, now);
    SplitIsStable(RawConversation(log, peer));
  }

  lemma CompactionLeavesNothing(log: seq<Record>, peer: string, body: string, svc: Services, t0: real, t1: real)
    requires WellFormed(log) && Later(log, t0) && t0 < t1 && Pre(log, peer) != []
    ensures
      var mid := log + [Compacted(log, peer, body, svc, t0, t1)];
      WellFormed(mid) && Pre(mid, peer) == [] && |Chain(mid, peer)| == |Chain(log, peer)| + 1
  {
    CompactedExtends(log, peer, body, svc, t0, t1);
    TailAfterCompaction(log, peer, body, svc, t0, t1);
    StableTail(log, peer, log + [Compacted(log, peer, body, svc, t0, t1)], t0);
  }

  lemma StablePre(log: seq<Record>, peer: string, log': seq<Record>)
    requires RawConversation(log', peer) == RawConversation(log, peer)
    ensures Pre(log', peer) == Pre(log, peer)
  {
  }

  lemma FoldConverges(log: seq<Record>, peer: string, cap: nat, svc: Services, ts: real)
    requires WellFormed(log) && Later(log, ts) && cap >= 2 && FoldUnvetoed(log, peer, cap, svc, ts)
    requires Pre(log, peer) == []
    ensures
      var log' := FoldStep(log, peer, cap, svc, ts);
      WellFormed(log') && |Chain(log', peer)| <= cap && Pre(log', peer) == []
  {
    FoldBounds(log, peer, cap, svc, ts);
    StablePre(log, peer, FoldStep(log, peer, cap, svc, ts));
  }

  lemma LaterAppend(log: seq<Record>, r: Record, ts: real)
    requires Later(log, r.ts) && r.ts < ts
    ensures Later(log + [r], ts)
  {
  }

  lemma SummaryConverges(log: seq<Record>, peer: string, cap: nat, svc: Services, body: string,
                         t0: real, t1: real, t2: real)
    requires WellFormed(log) && Later(log, t0) && t0 < t1 < t2 && cap >= 2 && Pre(log, peer) != []
    requires FoldUnvetoed(log + [Compacted(log, peer, body, svc, t0, t1)], peer, cap, svc, t2)
    ensures
      var log' := FoldStep(log + [Compacted(log, peer, body, svc, t0, t1)], peer, cap, svc, t2);
      WellFormed(log') && |Chain(log', peer)| <= cap && Pre(log', peer) == []
  {
    CompactionLeavesNothing(log, peer, body, svc, t0, t1);
    LaterAppend(log, Compacted(log, peer, body, svc, t0, t1), t2);
    FoldConverges(log + [Compacted(log, peer, body, svc, t0, t1)], peer, cap, svc, t2);
  }

  /** Past the gate and unvetoed: the chain is within its cap and nothing is left to summarize. */
  lemma PartitionConverges(log: seq<Record>, peer: string, cap: nat, svc: Services, t0: real, t1: real, t2: real)
    requires WellFormed(log) && Later(log, t0) && t0 < t1 < t2 && cap >= 2
    requires Unvetoed(log, peer, cap, svc, t0, t1, t2)
    ensures
      var log' := PartitionStep(log, peer, cap, svc, t0, t1, t2);
      WellFormed(log') && |Chain(log', peer)| <= cap && Pre(log', peer) == []
  {
    if Pre(log, peer) == [] {
      FoldConverges(log, peer, cap, svc, t2);
    } else {
      SummaryConverges(log, peer, cap, svc, svc.summarize(t0, Pre(log, peer)).value, t0, t1, t2);
    }
  }

  /**
   One call converges: either it was within budget and changed nothing, or the live chain is
   now within its cap. A second call with no new rows, whatever its services, writes nothing.
   */
  lemma CompactionConverges(log: seq<Record>, peer: string, lim: Limits, svc: Services, t0: real, t1: real, t2: real,
                            svc2: Services, u0: real, u1: real, u2: real)
    requires WellFormed(log) && Later(log, t0) && t0 < t1 < t2
    requires OverBudget(log, peer, lim) ==> Unvetoed(log, peer, lim.Cap(), svc, t0, t1, t2)
    ensures
      var log' := CompactStep(log, peer, lim, svc, t0, t1, t2);
      (OverBudget(log, peer, lim) ==> |Chain(log', peer)| <= lim.Cap()) &&
      CompactStep(log', peer, lim, svc2, u0, u1, u2) == log'
  {
    if OverBudget(log, peer, lim) {
      PartitionConverges(log, peer, lim.Cap(), svc, t0, t1, t2);
    }
  }

  /**
   Exactly when a call leaves the chain within its cap: past the gate, or when it was so already.
   A call below the token and turn limits returns before it looks at the chain.
   */
  lemma CapHoldsIff(log: seq<Record>, peer: string, lim: Limits, svc: Services, t0: real, t1: real, t2: real)
    requires WellFormed(log) && Later(log, t0) && t0 < t1 < t2
    requires OverBudget(log, peer, lim) ==> Unvetoed(log, peer, lim.Cap(), svc, t0, t1, t2)
    ensures |Chain(CompactStep(log, peer, lim, svc, t0, t1, t2), peer)| <= lim.Cap() <==>
      OverBudget(log, peer, lim) || |Chain(log, peer)| <= lim.Cap()
  {
    CompactionConverges(log, peer, lim, svc, t0, t1, t2, svc, t0, t1, t2);
  }

  // ------------------------------------------------- a long chain below the gate

  function Short(k: nat): (r: Record)
    ensures r.Summary? && r.peer == "u" && r.from == k as real && r.until == r.ts == (k + 1) as real
    ensures r.text == "s" && r.durable == ""
  {
    Summary((k + 1) as real, "u", "s", "", k as real, (k + 1) as real, 1)
  }

  /** `n` short summaries, one after the other. */
  function Shorts(n: nat): (log: seq<Record>)
    ensures |log| == n && forall k :: 0 <= k < n ==> log[k] == Short(k)
  {
    if n == 0 then [] else Shorts(n - 1) + [Short(n - 1)]
  }

  lemma NextShort(log: seq<Record>, s: Record, k: nat)
    requires log == Shorts(k) && s == Short(k) && WellFormed(log) && Chain(log, "u") == log
    ensures WellFormed(log + [s]) && Chain(log + [s], "u") == log + [s]
  {
    assert Later(log, s.ts);
    CompactionExtends(log, s);
  }

  lemma NothingLogged()
    ensures WellFormed([])
  {
    forall peer ensures PeerOk([], peer) {
      assert Chain([], peer) == [];
    }
  }

  lemma {:induction false} ShortsTile(n: nat)
    ensures WellFormed(Shorts(n)) && Chain(Shorts(n), "u") == Shorts(n)
  {
    if n == 0 {
      NothingLogged();
    } else {
      ShortsTile(n - 1);
      NextShort(Shorts(n - 1), Short(n - 1), n - 1);
    }
  }

  lemma {:induction false} NoTalk(log: seq<Record>, peer: string)
    requires forall r <- log :: r.Summary?
    ensures Entries(log, peer) == []
  {
    if log != [] {
      assert log[|log| - 1] in log;
      NoTalk(log[..|log| - 1], peer);
    }
  }

  lemma {:induction false} JoinShort(parts: seq<string>)
    requires forall t <- parts :: |t| <= 1
    ensures |Join(parts)| <= 3 * |parts|
  {
    if |parts| > 1 {
      JoinShort(parts[..|parts| - 1]);
    }
  }

  lemma {:induction false} ShortTexts(chain: seq<Record>)
    requires forall r <- chain :: r.Summary? && |r.text| <= 1
    ensures |Texts(chain)| <= |chain| && forall t <- Texts(chain) :: |t| <= 1
  {
    if chain != [] { ShortTexts(chain[..|chain| - 1]); }
  }

  lemma {:induction false} NoDurable(chain: seq<Record>)
    requires forall r <- chain :: r.Summary? && r.durable == ""
    ensures NewestDurable(chain) == ""
  {
    if chain != [] { NoDurable(chain[..|chain| - 1]); }
  }

  lemma ShortBlock(chain: seq<Record>)
    requires forall r <- chain :: r.Summary? && |r.text| <= 1 && r.durable == ""
    ensures |SummariesBlock(chain)| <= 3 * |chain|
  {
    ShortTexts(chain);
    NoDurable(chain);
    assert Texts(chain) + [] == Texts(chain);
    JoinShort(Texts(chain));
  }

  lemma BlockTokens(turns: seq<Turn>, block: string)
    requires turns == [] || (|turns| == 1 && turns[0].text == block)
    ensures TokenTotal(turns) <= 1 + |block| / 4
  {
    if turns != [] { assert turns[..0] == []; }
  }

  lemma OnlySummaries(log: seq<Record>, peer: string, lim: Limits)
    requires forall r <- log :: r.Summary? && |r.text| <= 1 && r.durable == ""
    requires Chain(log, peer) == log && 1 + 3 * |log| / 4 <= lim.budget && 1 <= lim.maxTurns
    ensures !OverBudget(log, peer, lim)
  {
    NoTalk(log, peer);
    assert RawConversation(log, peer) == [];
    ShortBlock(log);
    BlockTokens(Conversation(log, peer), SummariesBlock(log));
  }

  lemma ShortsStay(n: nat, lim: Limits) returns (log: seq<Record>)
    requires 1 + 3 * n / 4 <= lim.budget && 1 <= lim.maxTurns
    ensures WellFormed(log) && |Chain(log, "u")| == n && !OverBudget(log, "u", lim)
  {
    log := Shorts(n);
    ShortsTile(n);
    forall r <- log ensures r.Summary? && |r.text| <= 1 && r.durable == "" {
      var k :| 0 <= k < |log| && log[k] == r;
      assert log[k] == Short(k);
    }
    OnlySummaries(log, "u", lim);
  }

  /** Five short summaries, a budget of 100 tokens, the default cap of 4: the call changes nothing. */
  lemma LongChainStays(svc: Services, t0: real, t1: real, t2: real) returns (log: seq<Record>, lim: Limits)
    ensures lim == Limits(100, 10, None) && WellFormed(log) && !OverBudget(log, "u", lim)
    ensures |Chain(CompactStep(log, "u", lim, svc, t0, t1, t2), "u")| == 5 > lim.Cap() == 4
  {
    lim := Limits(100, 10, None);
    log := ShortsStay(5, lim);
  }
}
