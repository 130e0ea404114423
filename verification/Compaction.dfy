/**
 Compaction as a step on the session log, and what every run of logging,
 compacting and folding keeps.
 */
module Compaction {
  import opened Prelude
  import opened SessionLog
  import opened ToolPairs
  import opened Threads
  import opened Heads

  /** What the environment decides: texts, and whether a candidate is rejected (None). */
  datatype Services = Services(
    summarize: (real, seq<Turn>) -> Option<string>,
    fold: (real, seq<Record>) -> Option<string>,
    stamp: (real, real) -> string,
    durable: real -> string)

  datatype Limits = Limits(budget: int, maxTurns: int, chain: Option<int>) {
    /** $HARNESS_SUMMARY_CHAIN, default 4, at least 2. */
    function Cap(): (c: nat)
      ensures c >= 2
    {
      Max(2, if chain.Some? then chain.value else 4)
    }
  }

  function SummaryText(svc: Services, from: real, until: real, body: string): string {
    SUMMARY_PREFIX + svc.stamp(from, until) + body
  }

  function MaxGeneration(rs: seq<Record>): nat
    requires forall r <- rs :: r.Summary?
  {
    if rs == [] then 1
    else Max(MaxGeneration(rs[..|rs| - 1]), if rs[|rs| - 1].generation == 0 then 1 else rs[|rs| - 1].generation)
  }

  function Epoch(folded: seq<Record>, body: string, svc: Services, peer: string, ts: real): Record
    requires folded != [] && forall r <- folded :: r.Summary?
  {
    var from, until := folded[0].from, folded[|folded| - 1].until;
    Summary(ts, peer, SummaryText(svc, from, until, body), "", from, until, MaxGeneration(folded) + 1)
  }

  /** The live summaries that a fold takes together. */
  function Oldest(chain: seq<Record>, cap: nat): (folded: seq<Record>)
    requires cap >= 2
    ensures |folded| == if |chain| <= cap then 0 else |chain| - cap + 1
    ensures folded == chain[..|folded|]
  {
    if |chain| <= cap then [] else chain[..|chain| - cap + 1]
  }

  /** Fold the oldest live summaries into one record when the chain outgrew `cap`. */
  function FoldStep(log: seq<Record>, peer: string, cap: nat, svc: Services, ts: real): seq<Record>
    requires cap >= 2
  {
    var folded := Oldest(Chain(log, peer), cap);
    if folded == [] then log
    else
      match svc.fold(ts, folded)
      case None => log
      case Some(body) => log + [Epoch(folded, body, svc, peer, ts)]
  }

  /** The thread outgrew its token budget or its turn limit. */
  predicate OverBudget(log: seq<Record>, peer: string, lim: Limits) {
    var turns := Conversation(log, peer);
    lim.budget > 0 && turns != [] &&
    !(TokenTotal(turns) <= lim.budget && |turns| <= lim.maxTurns)
  }

  ghost function Pre(log: seq<Record>, peer: string): seq<Turn> {
    var raw := RawConversation(log, peer);
    raw[..SplitPoint(raw)]
  }

  /** Where the new seam goes: the first verbatim turn, or now when no turn stays verbatim. */
  ghost function NewSeam(log: seq<Record>, peer: string, now: real): real {
    var raw := RawConversation(log, peer);
    if SplitPoint(raw) < |raw| then raw[SplitPoint(raw)].ts else now
  }

  /**
   The row a compaction writes: its text was made from the thread in `raw`, its range starts at
   the seam in `at`, read next, and the clock read t0 then and t1 when the row is written.
   */
  ghost function SummaryRow(raw: seq<Record>, at: seq<Record>, peer: string, body: string, svc: Services,
                            t0: real, t1: real): Record
  {
    var from, until := Seam(Chain(at, peer)), NewSeam(raw, peer, t0);
    Summary(t1, peer, SummaryText(svc, from, until, body), svc.durable(t1), from, until, 1)
  }

  /** The row of a compaction during which nothing else is logged. */
  ghost function Compacted(log: seq<Record>, peer: string, body: string, svc: Services, t0: real, t1: real): Record {
    SummaryRow(log, log, peer, body, svc, t0, t1)
  }

  /** The log after partitioning at the split point; the clock reads t0 < t1 < t2. */
  ghost function PartitionStep(log: seq<Record>, peer: string, cap: nat, svc: Services,
                               t0: real, t1: real, t2: real): seq<Record>
    requires cap >= 2
  {
    if Pre(log, peer) == [] then FoldStep(log, peer, cap, svc, t2)
    else
      match svc.summarize(t0, Pre(log, peer))
      case None => log
      case Some(body) => FoldStep(log + [Compacted(log, peer, body, svc, t0, t1)], peer, cap, svc, t2)
  }

  /** The log after one compaction attempt. */
  ghost function CompactStep(log: seq<Record>, peer: string, lim: Limits, svc: Services,
                             t0: real, t1: real, t2: real): seq<Record>
  {
    if !OverBudget(log, peer, lim) then log
    else PartitionStep(log, peer, lim.Cap(), svc, t0, t1, t2)
  }

  /** The next row is a summary of the turns before the split point. */
  ghost predicate SummaryAdded(was: seq<Record>, log: seq<Record>, peer: string, t0: real) {
    |was| < |log| && log[..|was|] == was &&
    var s := log[|was|];
    s.Summary? && s.peer == peer && s.from == Seam(Chain(was, peer)) && s.until == NewSeam(was, peer, t0)
  }

  lemma HeadKeepsTurns(turns: seq<Turn>, chain: seq<Record>)
    requires SortedByUntil(chain)
    ensures |turns| <= |WithHead(turns, chain)|
  {
  }

  lemma FoldAddsAtEnd(log: seq<Record>, peer: string, cap: nat, svc: Services, ts: real)
    requires cap >= 2
    ensures log <= FoldStep(log, peer, cap, svc, ts)
  {
  }

  /** Past the gate, with something to summarize and an answer, a summary is added. */
  lemma PartitionAdds(log: seq<Record>, peer: string, cap: nat, svc: Services, t0: real, t1: real, t2: real)
    requires cap >= 2 && Pre(log, peer) != [] && svc.summarize(t0, Pre(log, peer)).Some?
    ensures SummaryAdded(log, PartitionStep(log, peer, cap, svc, t0, t1, t2), peer, t0)
  {
    var body := svc.summarize(t0, Pre(log, peer)).value;
    var mid := log + [Compacted(log, peer, body, svc, t0, t1)];
    FoldAddsAtEnd(mid, peer, cap, svc, t2);
    var next := FoldStep(mid, peer, cap, svc, t2);
    assert next[|log|] == mid[|log|] && next[..|log|] == mid[..|log|] == log;
  }

  lemma SomethingToSummarize(log: seq<Record>, peer: string)
    requires Pre(log, peer) != []
    ensures Conversation(log, peer) != []
  {
    HeadKeepsTurns(RawConversation(log, peer), Chain(log, peer));
  }

  /** When a call does nothing at all, and when it must write a summary. */
  lemma GateIsExact(log: seq<Record>, peer: string, lim: Limits, svc: Services, t0: real, t1: real, t2: real)
    ensures
      var turns, next := Conversation(log, peer), CompactStep(log, peer, lim, svc, t0, t1, t2);
      (lim.budget <= 0 || turns == [] || (TokenTotal(turns) <= lim.budget && |turns| <= lim.maxTurns) ==>
         next == log) &&
      ((lim.budget > 0 && (TokenTotal(turns) > lim.budget || |turns| > lim.maxTurns) &&
        Pre(log, peer) != [] && svc.summarize(t0, Pre(log, peer)).Some?) ==> SummaryAdded(log, next, peer, t0))
  {
    if Pre(log, peer) != [] && svc.summarize(t0, Pre(log, peer)).Some? {
      SomethingToSummarize(log, peer);
      PartitionAdds(log, peer, lim.Cap(), svc, t0, t1, t2);
    }
  }

  // -------------------------------------------------------------- the store

  class SessionStore {
    var log: seq<Record>

    constructor ()
      ensures log == []
    {
      log := [];
    }

    method LogTurn(r: Record)
      modifies this
      ensures log == old(log) + [r]
    {
      log := log + [r];
    }

    /** Collect the peer's summaries, keep those no later one contains, sort them. */
    method SummaryChain(peer: string) returns (chain: seq<Record>)
      ensures chain == Chain(log, peer) && ChainIs(log, peer, chain)
    {
      ChainListsLive(log, peer);
      var records := CollectSummaries(peer);
      var live := KeepLive(records);
      chain := SortByUntil(live);
    }

    method CollectSummaries(peer: string) returns (records: seq<Record>)
      ensures records == Summaries(log, peer)
    {
      records := [];
      for i := 0 to |log|
        invariant records == Summaries(log[..i], peer)
      {
        SummariesAppend(log[..i], log[i], peer);
        assert log[..i] + [log[i]] == log[..i + 1];
        if SummaryFor(log[i], peer) {
          records := records + [log[i]];
        }
      }
      assert log[..|log|] == log;
    }

    static method KeepLive(records: seq<Record>) returns (live: seq<Record>)
      ensures live == Survivors(records, |records|)
    {
      live := [];
      for i := 0 to |records|
        invariant live == Survivors(records, i)
      {
        var superseded := IsSuperseded(records, i);
        if !superseded {
          live := live + [records[i]];
        }
      }
    }

    static method IsSuperseded(records: seq<Record>, i: nat) returns (superseded: bool)
      requires i < |records|
      ensures superseded <==> Superseded(records, i)
    {
      superseded := false;
      for j := i + 1 to |records|
        invariant superseded <==> exists k :: i < k < j && Contains(records[k], records[i])
      {
        superseded := superseded || Contains(records[j], records[i]);
      }
    }

    /** One pass over the log: filter, cut at the seam, coalesce. */
    method ScanTurns(peer: string, covered: Option<real>) returns (turns: seq<Turn>)
      requires Stamped(log)
      ensures turns == RawScan(log, peer, if covered.Some? then covered.value else 0.0)
      ensures ThreadIs(log, peer, if covered.Some? then covered.value else 0.0, turns)
    {
      ghost var seam := if covered.Some? then covered.value else 0.0;
      RebuiltIsThread(log, peer, seam);
      turns := [];
      var lastInPeer := "";
      for i := 0 to |log|
        invariant lastInPeer == LastSender(log[..i])
        invariant turns == RawScan(log[..i], peer, seam)
      {
        var record := log[i];
        ScanStepAt(log, i, peer, seam);
        if !Talk(record) {
          continue;
        }
        var owner := record.peer;
        if record.speaker.In? {
          owner := Sender(record);
          lastInPeer := owner;
        } else if owner == "" {
          owner := lastInPeer;
        }
        if owner != peer || (covered.Some? && record.ts < covered.value) {
          continue;
        }
        var text := Body(record);
        if text == "" {
          continue;
        }
        turns := Push(turns, Turn(if record.speaker.In? then User else Assistant, text, record.ts));
      }
      assert log[..|log|] == log;
    }

    /** The thread after the seam, led by the summaries when asked for. */
    method RebuildConversation(peer: string, withSummaries: bool) returns (turns: seq<Turn>)
      requires Stamped(log)
      ensures turns == if withSummaries then Conversation(log, peer) else RawConversation(log, peer)
      ensures Rebuilt(log, peer, withSummaries, turns)
    {
      var chain := SummaryChain(peer);
      turns := TailTurns(peer, chain);
      if withSummaries {
        turns := WithHead(turns, chain);
      }
      RebuiltAsLogged(log, peer, withSummaries);
    }

    method TailTurns(peer: string, chain: seq<Record>) returns (turns: seq<Turn>)
      requires Stamped(log) && chain == Chain(log, peer)
      ensures turns == RawConversation(log, peer)
    {
      var covered := if chain != [] then Some(chain[|chain| - 1].until) else None;
      turns := ScanTurns(peer, covered);
    }

    /** What a fold would take now; nothing while the chain is within its cap. */
    method DraftFold(peer: string, cap: nat) returns (folded: seq<Record>)
      requires cap >= 2
      ensures folded == Oldest(Chain(log, peer), cap)
    {
      var chain := SummaryChain(peer);
      if |chain| <= cap {
        return [];
      }
      folded := chain[..|chain| - cap + 1];
    }

    method MaybeFold(peer: string, cap: nat, svc: Services, ts: real) returns (wrote: bool)
      requires cap >= 2
      modifies this
      ensures log == FoldStep(old(log), peer, cap, svc, ts)
      ensures wrote <==> log != old(log)
    {
      var folded := DraftFold(peer, cap);
      if folded == [] {
        return false;
      }
      var body := svc.fold(ts, folded);
      if body == None {
        return false;
      }
      LogTurn(Epoch(folded, body.value, svc, peer, ts));
      wrote := true;
    }

    method MaybeCompact(peer: string, lim: Limits, svc: Services, t0: real, t1: real, t2: real)
      returns (wrote: bool)
      requires Stamped(log)
      modifies this
      ensures log == CompactStep(old(log), peer, lim, svc, t0, t1, t2)
      ensures wrote <==> log != old(log)
      ensures
        var turns := Conversation(old(log), peer);
        lim.budget <= 0 || turns == [] || (TokenTotal(turns) <= lim.budget && |turns| <= lim.maxTurns) ==>
          !wrote && log == old(log)
      ensures
        var turns := Conversation(old(log), peer);
        lim.budget > 0 && (TokenTotal(turns) > lim.budget || |turns| > lim.maxTurns) &&
        Pre(old(log), peer) != [] && svc.summarize(t0, Pre(old(log), peer)).Some? ==>
          wrote && SummaryAdded(old(log), log, peer, t0)
    {
      GateIsExact(log, peer, lim, svc, t0, t1, t2);
      if lim.budget <= 0 {
        return false;
      }
      var turns := RebuildConversation(peer, true);
      if turns == [] || (TokenTotal(turns) <= lim.budget && |turns| <= lim.maxTurns) {
        return false;
      }
      wrote := CompactPartition(peer, lim.Cap(), svc, t0, t1, t2);
    }

    /** Past the gate: summarize what lies before the split point, then fold an over-long chain. */
    method CompactPartition(peer: string, cap: nat, svc: Services, t0: real, t1: real, t2: real)
      returns (wrote: bool)
      requires Stamped(log) && cap >= 2
      modifies this
      ensures log == PartitionStep(old(log), peer, cap, svc, t0, t1, t2)
      ensures wrote <==> log != old(log)
    {
      var pre, until := FindPartition(peer, t0);
      if pre == [] {
        wrote := MaybeFold(peer, cap, svc, t2);
        return;
      }
      var from := ReadSeam(peer);
      var body := svc.summarize(t0, pre);
      if body == None {
        return false;
      }
      WriteSummary(peer, body.value, from, until, svc, t1);
      var folded := MaybeFold(peer, cap, svc, t2);
      wrote := true;
    }

    /** The turns before the split point, and the time stamp of the new seam. */
    method FindPartition(peer: string, now: real) returns (pre: seq<Turn>, until: real)
      requires Stamped(log)
      ensures pre == Pre(log, peer) && until == NewSeam(log, peer, now)
    {
      var raw := RebuildConversation(peer, false);
      var split := FindSplitPoint(raw);
      pre := raw[..split];
      until := if split < |raw| then raw[split].ts else now;
    }

    method ReadSeam(peer: string) returns (from: real)
      ensures from == Seam(Chain(log, peer))
    {
      var chain := SummaryChain(peer);
      from := if chain != [] then chain[|chain| - 1].until else 0.0;
    }

    /** Commit point: one row for the range read before; the log may have grown since. */
    method WriteSummary(peer: string, body: string, from: real, until: real, svc: Services, t1: real)
      modifies this
      ensures log == old(log) +
        [Summary(t1, peer, SUMMARY_PREFIX + svc.stamp(from, until) + body, svc.durable(t1), from, until, 1)]
    {
      LogTurn(Summary(t1, peer, SummaryText(svc, from, until, body), svc.durable(t1), from, until, 1));
    }
  }

  ghost function RawScan(log: seq<Record>, peer: string, seam: real): seq<Turn> {
    Coalesce(Between(Entries(log, peer), seam, None))
  }

  lemma ScanStep(before: seq<Record>, r: Record, peer: string, seam: real)
    ensures LastSender(before + [r]) == if Talk(r) && r.speaker.In? then Sender(r) else LastSender(before)
    ensures
      var t := TurnOf(r, LastSender(before), peer);
      RawScan(before + [r], peer, seam) ==
      if t.Some? && seam <= t.value.ts then Push(RawScan(before, peer, seam), t.value) else RawScan(before, peer, seam)
  {
    assert (before + [r])[..|before|] == before;
    EntriesAppend(before, r, peer);
    var t := TurnOf(r, LastSender(before), peer);
    var es := Entries(before, peer);
    if t.Some? {
      assert (es + [t.value])[..|es|] == es;
      if seam <= t.value.ts {
        CoalescePush(Between(es, seam, None), t.value);
      } else {
        assert Between(es, seam, None) + [] == Between(es, seam, None);
      }
    } else {
      assert es + [] == es;
    }
  }

  lemma ScanStepAt(log: seq<Record>, i: nat, peer: string, seam: real)
    requires Stamped(log) && i < |log|
    ensures log[i].ts >= 0.0
    ensures LastSender(log[..i + 1]) ==
            if Talk(log[i]) && log[i].speaker.In? then Sender(log[i]) else LastSender(log[..i])
    ensures
      var t := TurnOf(log[i], LastSender(log[..i]), peer);
      RawScan(log[..i + 1], peer, seam) ==
      if t.Some? && seam <= t.value.ts then Push(RawScan(log[..i], peer, seam), t.value)
      else RawScan(log[..i], peer, seam)
  {
    assert log[..i] + [log[i]] == log[..i + 1];
    ScanStep(log[..i], log[i], peer, seam);
  }
}
