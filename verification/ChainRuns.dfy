/**
 Safety of the summary chain over every run: nothing is lost, nothing is
 represented twice, and every summary was written from exactly its own range.
 */
module ChainRuns {
  import opened Prelude
  import opened SessionLog
  import opened ToolPairs
  import opened Compaction
  import opened Tiling

  /** The chain tiles [0, seam), and the seam is not in the future. */
  ghost predicate PeerOk(log: seq<Record>, peer: string) {
    Tiles(Chain(log, peer)) &&
    (Chain(log, peer) != [] ==> log != [] && Seam(Chain(log, peer)) <= log[|log| - 1].ts)
  }

  ghost predicate WellFormed(log: seq<Record>) {
    Ticking(log) && forall peer :: PeerOk(log, peer)
  }

  // -------------------------------------------------------- one compaction

  /** Cutting a coalesced thread at a turn is cutting its entries at that turn's time stamp. */
  lemma CutInside(es: seq<Turn>, k: nat, lo: real)
    requires Ordered(es) && AtOrAfter(es, lo) && 0 < k < |Coalesce(es)|
    ensures
      var cut := Coalesce(es)[k].ts;
      lo < cut && (exists e <- es :: e.ts == cut) &&
      Coalesce(es)[..k] == Coalesce(Between(es, lo, Some(cut))) &&
      Coalesce(es)[k..] == Coalesce(Between(es, cut, None))
  {
    var a, b := CoalesceCut(es, k);
    assert a != [] by { assert Coalesce([]) == []; }
    assert b[0] == es[|a|] && es[0] == a[0];
    OrderedParts(es, a, b);
    BetweenSplit(a, b, lo);
    BetweenAll(a, lo);
  }

  lemma OrderedParts(es: seq<Turn>, a: seq<Turn>, b: seq<Turn>)
    requires Ordered(es) && es == a + b && b != []
    ensures Before(a, b[0].ts) && AtOrAfter(b, b[0].ts)
    ensures forall lo :: AtOrAfter(es, lo) ==> AtOrAfter(a, lo)
  {
    forall e <- a ensures e.ts < b[0].ts {
      var i :| 0 <= i < |a| && a[i] == e;
      assert es[i] == e && es[|a|] == b[0];
    }
    forall e <- b ensures b[0].ts <= e.ts {
      var i :| 0 <= i < |b| && b[i] == e;
      assert es[|a| + i] == e && es[|a|] == b[0];
    }
    assert forall e <- a :: e in es;
  }

  /** The entries after the seam. */
  ghost function Fresh(log: seq<Record>, peer: string): seq<Turn> {
    Between(Entries(log, peer), Seam(Chain(log, peer)), None)
  }

  lemma FreshShape(log: seq<Record>, peer: string, now: real)
    requires Ticking(log) && Later(log, now)
    ensures var es := Fresh(log, peer);
      Ordered(es) && AtOrAfter(es, Seam(Chain(log, peer))) && Before(es, now) && NoTools(RawConversation(log, peer))
  {
    EntriesTicking(log, peer, now);
    BetweenSubset(Entries(log, peer), Seam(Chain(log, peer)), None);
    CoalesceAlternates(Fresh(log, peer));
  }

  /**
   The partition is exact: what is handed to the summarizer is the coalescing of
   the entries from the old seam to the new one, and the rebuilt tail is exactly
   the old suffix.
   */
  lemma PartitionIsExact(log: seq<Record>, peer: string, now: real)
    requires Ticking(log) && Later(log, now) && Pre(log, peer) != []
    ensures
      var seam, cut := Seam(Chain(log, peer)), NewSeam(log, peer, now);
      seam < cut <= now &&
      Pre(log, peer) == Coalesce(Between(Entries(log, peer), seam, Some(cut))) &&
      RawConversation(log, peer)[SplitPoint(RawConversation(log, peer))..] ==
      Coalesce(Between(Entries(log, peer), cut, None))
  {
    var es, seam, cut := Fresh(log, peer), Seam(Chain(log, peer)), NewSeam(log, peer, now);
    FreshShape(log, peer, now);
    CutFresh(es, SplitPoint(Coalesce(es)), seam, now);
    BetweenOfBetween(Entries(log, peer), seam, cut, None);
    BetweenOfBetween(Entries(log, peer), seam, seam, Some(cut));
  }

  /** The same for a cut anywhere, the end included: then the cut is at `now`. */
  lemma CutFresh(es: seq<Turn>, k: nat, lo: real, now: real)
    requires Ordered(es) && AtOrAfter(es, lo) && Before(es, now) && 0 < k <= |Coalesce(es)|
    ensures
      var cut := if k < |Coalesce(es)| then Coalesce(es)[k].ts else now;
      lo < cut <= now &&
      Coalesce(es)[..k] == Coalesce(Between(es, lo, Some(cut))) &&
      Coalesce(es)[k..] == Coalesce(Between(es, cut, None))
  {
    if k < |Coalesce(es)| {
      CutInside(es, k, lo);
    } else {
      assert es[0] in es;
      BetweenBelow(es, now, lo);
      BetweenAll(es, lo);
      assert Coalesce(es)[..k] == Coalesce(es);
    }
  }

  lemma OtherPeersUntouched(log: seq<Record>, s: Record, peer: string)
    requires !SummaryFor(s, peer)
    ensures Chain(log + [s], peer) == Chain(log, peer)
  {
    LiveOther(log, s, peer);
  }

  lemma LogLine(log: seq<Record>, r: Record)
    requires WellFormed(log) && Later(log, r.ts) && r.Line?
    ensures WellFormed(log + [r])
    ensures forall peer :: Chain(log + [r], peer) == Chain(log, peer)
  {
    forall peer
      ensures Chain(log + [r], peer) == Chain(log, peer) && PeerOk(log + [r], peer)
    {
      assert PeerOk(log, peer);
      OtherPeersUntouched(log, r, peer);
    }
  }

  lemma PeerKept(log: seq<Record>, s: Record, peer: string)
    requires PeerOk(log, peer) && Later(log, s.ts) && s.Summary? && s.until <= s.ts
    requires SummaryFor(s, peer) ==> Fits(Chain(log, peer), s)
    ensures PeerOk(log + [s], peer)
  {
    if SummaryFor(s, peer) {
      CommitTilesIff(log, s, peer);
      CommitSeam(log, s);
    } else {
      OtherPeersUntouched(log, s, peer);
      if Chain(log, peer) != [] { assert log[|log| - 1] in log; }
    }
  }

  lemma TickingAppend(log: seq<Record>, r: Record)
    requires Ticking(log) && Later(log, r.ts)
    ensures Ticking(log + [r])
  {
    assert forall i :: 0 <= i < |log| ==> (log + [r])[i] == log[i] && log[i] in log;
  }

  lemma FittingKeeps(log: seq<Record>, s: Record)
    requires WellFormed(log) && Later(log, s.ts) && s.Summary? && s.until <= s.ts && Fits(Chain(log, s.peer), s)
    ensures WellFormed(log + [s])
  {
    TickingAppend(log, s);
    forall peer ensures PeerOk(log + [s], peer) {
      assert PeerOk(log, peer);
      PeerKept(log, s, peer);
    }
  }

  lemma CommitSeam(log: seq<Record>, s: Record)
    requires PeerOk(log, s.peer) && Later(log, s.ts) && s.Summary? && s.until <= s.ts && Fits(Chain(log, s.peer), s)
    ensures Seam(Chain(log + [s], s.peer)) <= s.ts
  {
    var chain := Chain(log, s.peer);
    var i, j := FitsSpans(chain, s);
    ChainInsert(log, s, s.peer, i, j);
    InsertedSeam(chain, s, i, j, Chain(log + [s], s.peer));
    if chain != [] { assert log[|log| - 1] in log; }
  }

  lemma InsertedSeam(chain: seq<Record>, s: Record, i: nat, j: nat, next: seq<Record>)
    requires SortedByUntil(chain) && SortedByUntil(next) && i <= j <= |chain| && s.Summary?
    requires next == chain[..i] + [s] + chain[j..]
    ensures Seam(next) == if j < |chain| then Seam(chain) else s.until
  {
    if j < |chain| { assert next[|next| - 1] == chain[|chain| - 1]; }
  }

  /** The exact condition, checkable when a summary is written: it keeps the log well formed if and only if it fits. */
  lemma CommitKeepsIff(log: seq<Record>, s: Record)
    requires WellFormed(log) && Later(log, s.ts) && s.Summary? && s.until <= s.ts
    ensures WellFormed(log + [s]) <==> Fits(Chain(log, s.peer), s)
  {
    if Fits(Chain(log, s.peer), s) {
      FittingKeeps(log, s);
    } else if WellFormed(log + [s]) {
      assert PeerOk(log, s.peer) && PeerOk(log + [s], s.peer);
      CommitTilesIff(log, s, s.peer);
    }
  }

  lemma AtSeamSpans(chain: seq<Record>, s: Record)
    requires Tiles(chain) && SortedByUntil(chain) && s.Summary? && s.from == Seam(chain) < s.until
    ensures Fits(chain, s) && Spans(chain, s, |chain|, |chain|)
    ensures chain[..|chain|] + [s] + chain[|chain|..] == chain + [s]
  {
    assert chain != [] ==> chain[|chain| - 1] in chain;
  }

  /** A compaction that starts where the chain ends appends one range and changes no other. */
  lemma CompactionExtends(log: seq<Record>, s: Record)
    requires WellFormed(log) && Later(log, s.ts) && s.Summary?
    requires s.from == Seam(Chain(log, s.peer)) < s.until <= s.ts
    ensures Chain(log + [s], s.peer) == Chain(log, s.peer) + [s] && WellFormed(log + [s])
  {
    assert PeerOk(log, s.peer);
    AtSeamSpans(Chain(log, s.peer), s);
    FittingKeeps(log, s);
    ChainInsert(log, s, s.peer, |Chain(log, s.peer)|, |Chain(log, s.peer)|);
  }

  /** The union of the first `m` tiles. */
  ghost predicate Unites(chain: seq<Record>, e: Record, m: nat) {
    0 < m <= |chain| && chain[0].Summary? && chain[m - 1].Summary? && e.Summary? &&
    e.from == chain[0].from && e.until == chain[m - 1].until
  }

  lemma UnionSpans(chain: seq<Record>, e: Record, m: nat)
    requires Tiles(chain) && SortedByUntil(chain) && Unites(chain, e, m)
    ensures Fits(chain, e) && Spans(chain, e, 0, m) && e.until <= Seam(chain)
    ensures chain[..0] + [e] + chain[m..] == [e] + chain[m..]
    ensures SortedByUntil([e] + chain[m..]) && Seam([e] + chain[m..]) == Seam(chain)
  {
    assert chain[m - 1] in chain;
    StartsAscend(chain, m, 0);
    forall r <- chain[m..] ensures r in chain {}
  }

  /** A fold replaces exactly the oldest ranges by their union and leaves the seam alone. */
  lemma FoldReplaces(log: seq<Record>, e: Record, m: nat)
    requires WellFormed(log) && Later(log, e.ts) && e.Summary? && Unites(Chain(log, e.peer), e, m)
    ensures Chain(log + [e], e.peer) == [e] + Chain(log, e.peer)[m..] && WellFormed(log + [e])
    ensures Seam(Chain(log + [e], e.peer)) == Seam(Chain(log, e.peer))
  {
    assert PeerOk(log, e.peer);
    assert log[|log| - 1] in log;
    UnionSpans(Chain(log, e.peer), e, m);
    FittingKeeps(log, e);
    ChainInsert(log, e, e.peer, 0, m);
  }

  // ------------------------------------------------------------- whole runs

  /**
   One row is written. A compaction reads the log at `gate` rows to see whether it is over
   budget, at `raw` rows for the thread and at `at` rows for the seam, waits for its provider,
   and writes; a fold reads the chain at `at` rows. Anything may be written in between.
   */
  datatype Event =
    | Log(line: Record)
    | Commit(peer: string, lim: Limits, gate: nat, raw: nat, at: nat, t0: real, t1: real)
    | Fold(peer: string, lim: Limits, at: nat, t: real, ts: real)

  /** The clock read `t` when the log had `n` rows. */
  ghost predicate ClockAt(log: seq<Record>, n: nat, t: real)
    requires n <= |log|
  {
    Later(log[..n], t) && forall k :: n <= k < |log| ==> t < log[k].ts
  }

  ghost predicate Enabled(log: seq<Record>, ev: Event, svc: Services) {
    match ev
    case Log(line) => line.Line? && Later(log, line.ts)
    case Commit(peer, lim, gate, raw, at, t0, t1) =>
      gate <= raw <= at <= |log| && ClockAt(log, at, t0) && t0 < t1 && Later(log, t1) &&
      OverBudget(log[..gate], peer, lim) && Pre(log[..raw], peer) != [] &&
      svc.summarize(t0, Pre(log[..raw], peer)).Some?
    case Fold(peer, lim, at, t, ts) =>
      at <= |log| && Later(log, ts) &&
      var folded := Oldest(Chain(log[..at], peer), lim.Cap());
      folded != [] && svc.fold(t, folded).Some?
  }

  ghost function Written(log: seq<Record>, ev: Event, svc: Services): Record
    requires Enabled(log, ev, svc)
  {
    match ev
    case Log(line) => line
    case Commit(peer, _, _, raw, at, t0, t1) =>
      SummaryRow(log[..raw], log[..at], peer, svc.summarize(t0, Pre(log[..raw], peer)).value, svc, t0, t1)
    case Fold(peer, lim, at, t, ts) =>
      var folded := Oldest(Chain(log[..at], peer), lim.Cap());
      Epoch(folded, svc.fold(t, folded).value, svc, peer, ts)
  }

  /** Event `i` writes row `i` after the rows before it. */
  ghost predicate Writes(events: seq<Event>, svc: Services, log: seq<Record>, i: nat)
    requires i < |log| == |events|
  {
    Enabled(log[..i], events[i], svc) && log[i] == Written(log[..i], events[i], svc)
  }

  /** `log` is what the events leave. */
  ghost predicate Reaches(events: seq<Event>, svc: Services, log: seq<Record>) {
    |log| == |events| && forall i :: 0 <= i < |log| ==> Writes(events, svc, log, i)
  }

  /** Row `i`, if a summary, fitted the live chain when it was written. */
  ghost predicate Fitted(log: seq<Record>, i: nat)
    requires i < |log|
  {
    log[i].Summary? ==> Fits(Chain(log[..i], log[i].peer), log[i])
  }

  ghost predicate AllFit(log: seq<Record>) {
    forall i :: 0 <= i < |log| ==> Fitted(log, i)
  }

  /** What the clock says of one event. */
  lemma WrittenLater(log: seq<Record>, ev: Event, svc: Services)
    requires Enabled(log, ev, svc)
    ensures Later(log, Written(log, ev, svc).ts)
  {
  }

  lemma {:induction false} RunTicks(events: seq<Event>, svc: Services, log: seq<Record>)
    requires Reaches(events, svc, log)
    ensures Ticking(log)
  {
    forall i | 0 <= i < |log| ensures Later(log[..i], log[i].ts) {
      assert Writes(events, svc, log, i);
      WrittenLater(log[..i], events[i], svc);
    }
    forall i, j | 0 <= i < j < |log| ensures log[i].ts < log[j].ts {
      assert log[..j][i] == log[i] && log[..j][i] in log[..j];
    }
  }

  lemma TickingPrefix(log: seq<Record>, n: nat)
    requires Ticking(log) && n <= |log|
    ensures Ticking(log[..n])
  {
    assert forall i :: 0 <= i < n ==> log[..n][i] == log[i];
  }

  lemma LaterPrefix(log: seq<Record>, m: nat, n: nat, t: real)
    requires m <= n <= |log| && Later(log[..n], t)
    ensures Later(log[..m], t)
  {
    forall r <- log[..m] ensures r in log[..n] {
      var i :| 0 <= i < m && log[..m][i] == r;
      assert log[..n][i] == r;
    }
  }

  /** A compaction's range ends in its past. */
  lemma CutInThePast(log: seq<Record>, peer: string, raw: nat, at: nat, t0: real)
    requires Ticking(log) && raw <= at <= |log| && Later(log[..at], t0) && Pre(log[..raw], peer) != []
    ensures NewSeam(log[..raw], peer, t0) <= t0
  {
    TickingPrefix(log, raw);
    LaterPrefix(log, raw, at, t0);
    PartitionIsExact(log[..raw], peer, t0);
  }

  /** A fold's range ends at the seam it read or before. */
  lemma FoldInThePast(log: seq<Record>, peer: string, at: nat, cap: nat, ts: real)
    requires at <= |log| && WellFormed(log[..at]) && Later(log, ts) && cap >= 2
    requires Oldest(Chain(log[..at], peer), cap) != []
    ensures
      var folded := Oldest(Chain(log[..at], peer), cap);
      Tiles(folded) && folded[|folded| - 1].until <= ts
  {
    var chain := Chain(log[..at], peer);
    assert PeerOk(log[..at], peer);
    var n := |Oldest(chain, cap)|;
    assert chain[n - 1].until <= chain[|chain| - 1].until;
    assert log[..at][at - 1] == log[at - 1] && log[at - 1] in log;
    assert forall r <- chain[..n] :: r in chain;
  }

  lemma WrittenInThePast(log: seq<Record>, ev: Event, svc: Services)
    requires Enabled(log, ev, svc) && Ticking(log) && Written(log, ev, svc).Summary?
    requires ev.Fold? ==> WellFormed(log[..ev.at])
    ensures Written(log, ev, svc).until <= Written(log, ev, svc).ts
  {
    match ev
    case Log(_) =>
    case Commit(peer, _, _, raw, at, t0, _) => CutInThePast(log, peer, raw, at, t0);
    case Fold(peer, lim, at, _, ts) => FoldInThePast(log, peer, at, lim.Cap(), ts);
  }

  ghost predicate EverTiled(log: seq<Record>) {
    forall n, peer :: 0 <= n <= |log| ==> Tiles(Chain(log[..n], peer))
  }

  /** A run keeps the log well formed as long as every summary fits. */
  lemma {:induction false} FittingRun(events: seq<Event>, svc: Services, log: seq<Record>, n: nat)
    requires Reaches(events, svc, log) && n <= |log| && forall i :: 0 <= i < n ==> Fitted(log, i)
    ensures forall k :: 0 <= k <= n ==> WellFormed(log[..k])
  {
    if n == 0 {
      forall peer ensures PeerOk([], peer) {
        assert Chain([], peer) == [];
      }
      assert log[..0] == [];
    } else {
      FittingRun(events, svc, log, n - 1);
      RowInThePast(events, svc, log, n - 1);
      assert Fitted(log, n - 1);
      NextKept(log[..n - 1], log[n - 1]);
      assert log[..n] == log[..n - 1] + [log[n - 1]];
    }
  }

  lemma RowInThePast(events: seq<Event>, svc: Services, log: seq<Record>, i: nat)
    requires Reaches(events, svc, log) && i < |log| && forall k :: 0 <= k <= i ==> WellFormed(log[..k])
    ensures Later(log[..i], log[i].ts) && (log[i].Summary? ==> log[i].until <= log[i].ts)
  {
    var before, ev := log[..i], events[i];
    assert Writes(events, svc, log, i);
    WrittenLater(before, ev, svc);
    if log[i].Summary? {
      if ev.Fold? { assert before[..ev.at] == log[..ev.at]; }
      WrittenInThePast(before, ev, svc);
    }
  }

  lemma NextKept(log: seq<Record>, r: Record)
    requires WellFormed(log) && Later(log, r.ts)
    requires r.Summary? ==> r.until <= r.ts && Fits(Chain(log, r.peer), r)
    ensures WellFormed(log + [r])
  {
    if r.Summary? { FittingKeeps(log, r); } else { LogLine(log, r); }
  }

  lemma FitMeansTiled(events: seq<Event>, svc: Services, log: seq<Record>)
    requires Reaches(events, svc, log) && AllFit(log)
    ensures EverTiled(log)
  {
    FittingRun(events, svc, log, |log|);
    forall n, peer | 0 <= n <= |log| ensures Tiles(Chain(log[..n], peer)) {
      assert WellFormed(log[..n]);
      assert PeerOk(log[..n], peer);
    }
  }

  lemma TiledMeansFitted(log: seq<Record>, i: nat)
    requires i < |log| && EverTiled(log)
    ensures Fitted(log, i)
  {
    if log[i].Summary? {
      assert log[..i + 1] == log[..i] + [log[i]];
      TiledMeansFits(log[..i], log[i], log[i].peer);
    }
  }

  /**
   Over every run, whatever is logged, compacted or folded while a compaction or a fold waits:
   the chains stay tiled throughout if and only if every summary fitted when it was written.
   */
  lemma TiledIffAllFit(events: seq<Event>, svc: Services, log: seq<Record>)
    requires Reaches(events, svc, log)
    ensures EverTiled(log) <==> AllFit(log)
  {
    if AllFit(log) {
      FitMeansTiled(events, svc, log);
    } else if EverTiled(log) {
      forall i | 0 <= i < |log| ensures Fitted(log, i) {
        TiledMeansFitted(log, i);
      }
    }
  }

  /**
   Nothing lost, nothing twice: in every log that fitting summaries leave, each chat entry of each
   peer is stood in for by exactly one live summary and not in the verbatim tail, or by none and
   in the tail.
   */
  lemma EveryEntryExactlyOnce(events: seq<Event>, svc: Services, log: seq<Record>, peer: string, e: Turn)
    requires Reaches(events, svc, log) && AllFit(log) && e in Entries(log, peer)
    ensures
      var (chain, tail) := (Chain(log, peer), Between(Entries(log, peer), Seam(Chain(log, peer)), None));
      Tiles(chain) && RawConversation(log, peer) == Coalesce(tail) &&
      ((CoverCount(chain, e.ts) == 1 && e !in tail) || (CoverCount(chain, e.ts) == 0 && e in tail))
  {
    FittingRun(events, svc, log, |log|);
    assert log[..|log|] == log && PeerOk(log, peer);
    var now := if log == [] then 1.0 else log[|log| - 1].ts + 1.0;
    EntriesTicking(log, peer, now);
    TilesCoverOnce(Chain(log, peer), e.ts);
    BetweenSubset(Entries(log, peer), Seam(Chain(log, peer)), None);
  }

  // ------------------------------------------------- schedules that always fit

  /** Between its reads and its writing no other summary of the same peer was written. */
  ghost predicate Undisturbed(log: seq<Record>, ev: Event) {
    match ev
    case Log(_) => true
    case Commit(peer, _, _, raw, _, _, _) => raw <= |log| && NoSummarySince(log, raw, peer)
    case Fold(peer, _, at, _, _) => at <= |log| && NoSummarySince(log, at, peer)
  }

  ghost predicate NoSummarySince(log: seq<Record>, n: nat, peer: string)
    requires n <= |log|
  {
    forall i :: n <= i < |log| ==> !SummaryFor(log[i], peer)
  }

  lemma {:induction false} ChainQuiet(log: seq<Record>, n: nat, peer: string)
    requires n <= |log| && NoSummarySince(log, n, peer)
    ensures Chain(log, peer) == Chain(log[..n], peer)
    decreases |log|
  {
    if n < |log| {
      var init, r := log[..|log| - 1], log[|log| - 1];
      assert init[..n] == log[..n] && log == init + [r];
      ChainQuiet(init, n, peer);
      OtherPeersUntouched(init, r, peer);
    } else {
      assert log[..n] == log;
    }
  }

  lemma UndisturbedCommitFits(log: seq<Record>, ev: Event, svc: Services)
    requires WellFormed(log) && Enabled(log, ev, svc) && Undisturbed(log, ev) && ev.Commit?
    ensures Fits(Chain(log, ev.peer), Written(log, ev, svc))
  {
    var peer := ev.peer;
    ChainQuiet(log, ev.raw, peer);
    assert NoSummarySince(log, ev.at, peer);
    ChainQuiet(log, ev.at, peer);
    TickingPrefix(log, ev.raw);
    LaterPrefix(log, ev.raw, ev.at, ev.t0);
    PartitionIsExact(log[..ev.raw], peer, ev.t0);
    assert PeerOk(log, peer);
    AtSeamSpans(Chain(log, peer), Written(log, ev, svc));
  }

  lemma UndisturbedFoldFits(log: seq<Record>, ev: Event, svc: Services)
    requires WellFormed(log) && Enabled(log, ev, svc) && Undisturbed(log, ev) && ev.Fold?
    ensures Fits(Chain(log, ev.peer), Written(log, ev, svc))
  {
    var chain := Chain(log, ev.peer);
    ChainQuiet(log, ev.at, ev.peer);
    assert PeerOk(log, ev.peer);
    UnionSpans(chain, Written(log, ev, svc), |Oldest(chain, ev.lim.Cap())|);
  }

  /** A summary whose peer's chain did not change while its writer waited fits, whatever else was logged. */
  lemma UndisturbedFits(log: seq<Record>, ev: Event, svc: Services)
    requires WellFormed(log) && Enabled(log, ev, svc) && Undisturbed(log, ev) && !ev.Log?
    ensures Fits(Chain(log, ev.peer), Written(log, ev, svc))
  {
    if ev.Commit? { UndisturbedCommitFits(log, ev, svc); } else { UndisturbedFoldFits(log, ev, svc); }
  }

  /** So if compactions and folds of one peer never overlap, everything fits, whatever lines are logged meanwhile. */
  lemma {:induction false} UndisturbedRunFits(events: seq<Event>, svc: Services, log: seq<Record>, n: nat)
    requires Reaches(events, svc, log) && n <= |log|
    requires forall i :: 0 <= i < n ==> Undisturbed(log[..i], events[i])
    ensures forall i :: 0 <= i < n ==> Fitted(log, i)
  {
    if n > 0 {
      UndisturbedRunFits(events, svc, log, n - 1);
      FittingRun(events, svc, log, n - 1);
      assert Writes(events, svc, log, n - 1);
      if !events[n - 1].Log? {
        UndisturbedFits(log[..n - 1], events[n - 1], svc);
      }
    }
  }
}
