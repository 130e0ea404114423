/** What each summary's text stands for: the talk of its own range, or older summaries that tile it. */
module Sources {
  import opened Prelude
  import opened SessionLog
  import opened ToolPairs
  import opened Compaction
  import opened Tiling
  import opened ChainRuns

  /** `body` renders as the text of summary `r`. */
  ghost predicate TextIs(r: Record, svc: Services, body: Option<string>) {
    r.Summary? && body.Some? && r.text == SUMMARY_PREFIX + svc.stamp(r.from, r.until) + body.value
  }

  ghost predicate WrittenFromTalk(log: seq<Record>, i: nat, svc: Services, t: real)
    requires i < |log| && log[i].Summary?
  {
    var r := log[i];
    TextIs(r, svc, svc.summarize(t, Coalesce(Between(Entries(log[..i], r.peer), r.from, Some(r.until)))))
  }

  ghost predicate WrittenFromSummaries(log: seq<Record>, i: nat, svc: Services, folded: seq<Record>)
    requires i < |log| && log[i].Summary?
  {
    var r := log[i];
    |folded| >= 2 && Tiles(folded) &&
    (forall x <- folded :: SummaryFor(x, r.peer) && x in log[..i] && x.generation < r.generation) &&
    r.from == folded[0].from && r.until == folded[|folded| - 1].until &&
    exists t :: TextIs(r, svc, svc.fold(t, folded))
  }

  /**
   Row `i`, if a summary, was written from its own range only: from all the talk in
   [from, until) logged before it, or from older summaries that tile [from, until).
   */
  ghost predicate Sourced(log: seq<Record>, i: nat, svc: Services)
    requires i < |log|
  {
    log[i].Summary? ==>
      log[i].until <= log[i].ts &&
      ((exists t :: WrittenFromTalk(log, i, svc, t)) ||
      (exists folded :: WrittenFromSummaries(log, i, svc, folded)))
  }

  ghost predicate AllSourced(log: seq<Record>, svc: Services) {
    forall i :: 0 <= i < |log| ==> Sourced(log, i, svc)
  }

  lemma {:induction false} GenerationBound(rs: seq<Record>)
    requires forall r <- rs :: r.Summary?
    ensures forall r <- rs :: r.generation <= MaxGeneration(rs)
  {
    if rs != [] { GenerationBound(rs[..|rs| - 1]); }
  }

  lemma {:induction false} SurvivorsFromLog(log: seq<Record>, peer: string)
    ensures forall r <- Chain(log, peer) :: SummaryFor(r, peer) && r in log
  {
    forall r <- Chain(log, peer) ensures SummaryFor(r, peer) && r in log {
      assert r in multiset(Live(log, peer));
      assert r in Live(log, peer);
      var rs := Summaries(log, peer);
      assert r in rs[..|rs|];
    }
  }

  // ------------------------------------------------------ when a draft is exact

  /** No entry lies between the two times. */
  ghost predicate SameSide(es: seq<Turn>, a: real, b: real) {
    forall e <- es :: a <= e.ts <==> b <= e.ts
  }

  /** Every entry that only the second read sees lies before the seam it sees. */
  ghost predicate NothingNew(first: seq<Record>, second: seq<Record>, peer: string) {
    forall e <- Entries(second, peer) :: e in Entries(first, peer) || e.ts < Seam(Chain(second, peer))
  }

  /**
   The two reads of a compaction see seams with no entry between them, and where no turn stays
   verbatim, so that the range ends at the clock, nothing new was said between them.
   */
  ghost predicate ReadsAgree(log: seq<Record>, ev: Event) {
    ev.Commit? && ev.raw <= ev.at <= |log| ==>
      var (first, second) := (log[..ev.raw], log[..ev.at]);
      var raw := RawConversation(first, ev.peer);
      SameSide(Entries(first, ev.peer), Seam(Chain(first, ev.peer)), Seam(Chain(second, ev.peer))) &&
      (SplitPoint(raw) < |raw| || NothingNew(first, second, ev.peer))
  }

  function Weight(turns: seq<Turn>): nat {
    if turns == [] then 0 else Weight(turns[..|turns| - 1]) + 1 + |turns[|turns| - 1].text|
  }

  lemma PushWeighs(turns: seq<Turn>, e: Turn)
    ensures Weight(Push(turns, e)) > Weight(turns)
  {
    var n := |turns|;
    var out := Push(turns, e);
    if n > 0 && turns[n - 1].role == e.role {
      assert out[..n - 1] == turns[..n - 1];
    } else {
      assert out[..n] == turns;
    }
  }

  lemma CoalesceOneMore(es: seq<Turn>)
    requires es != []
    ensures Weight(Coalesce(es)) > Weight(Coalesce(es[..|es| - 1]))
  {
    PushWeighs(Coalesce(es[..|es| - 1]), es[|es| - 1]);
  }

  /** Coalescing loses no entry: with more of them the thread is longer. */
  lemma {:induction false} CoalesceGrows(all: seq<Turn>, n: nat)
    requires n <= |all|
    ensures Weight(Coalesce(all)) >= Weight(Coalesce(all[..n])) + |all| - n
  {
    if n == |all| {
      assert all[..n] == all;
    } else {
      var init := all[..|all| - 1];
      CoalesceGrows(init, n);
      assert init[..n] == all[..n];
      CoalesceOneMore(all);
    }
  }

  /** A coalesced thread starts when its first entry does. */
  lemma {:induction false} CoalesceStarts(es: seq<Turn>)
    ensures es == [] <==> Coalesce(es) == []
    ensures es != [] ==> Coalesce(es)[0].ts == es[0].ts
  {
    if es != [] {
      CoalesceStarts(es[..|es| - 1]);
    }
  }

  lemma {:induction false} BetweenSame(es: seq<Turn>, a: real, b: real, hi: Option<real>)
    requires SameSide(es, a, b)
    ensures Between(es, a, hi) == Between(es, b, hi)
  {
    if es != [] {
      assert forall e <- es[..|es| - 1] :: e in es;
      BetweenSame(es[..|es| - 1], a, b, hi);
    }
  }

  lemma FirstIsLeast(es: seq<Turn>, e: Turn)
    requires Ordered(es) && e in es
    ensures es[0].ts <= e.ts
  {
  }

  /** Entries before `cut` from `a` on and from `b` on that coalesce into threads with one start. */
  lemma OneStart(es: seq<Turn>, more: seq<Turn>, a: real, b: real, cut: real)
    requires Ordered(es + more)
    requires
      var given, held := Between(es, a, Some(cut)), Between(es + more, b, Some(cut));
      given != [] && held != [] && given[0].ts == held[0].ts
    ensures SameSide(es, a, b)
  {
    var given, held := Between(es, a, Some(cut)), Between(es + more, b, Some(cut));
    assert Ordered(es) by {
      assert forall i :: 0 <= i < |es| ==> (es + more)[i] == es[i];
    }
    BetweenSubset(es, a, Some(cut));
    BetweenSubset(es + more, b, Some(cut));
    assert given[0] in given && held[0] in held;
    forall e <- es ensures a <= e.ts <==> b <= e.ts {
      assert e in es + more;
      if a <= e.ts < b { FirstIsLeast(given, e); }
      if b <= e.ts < a { FirstIsLeast(held, e); }
    }
  }

  /**
   What was read from `a` on coalesces to the same thread as what is held from `b` on, exactly
   when no entry read lies between `a` and `b` and nothing further lies in the range.
   */
  lemma CoalesceSameIff(es: seq<Turn>, more: seq<Turn>, a: real, b: real, cut: real)
    requires Ordered(es + more) && Between(es, a, Some(cut)) != []
    ensures Coalesce(Between(es, a, Some(cut))) == Coalesce(Between(es + more, b, Some(cut))) <==>
      SameSide(es, a, b) && Between(more, b, Some(cut)) == []
  {
    var given, held := Between(es, a, Some(cut)), Between(es + more, b, Some(cut));
    var rest := Between(more, b, Some(cut));
    BetweenConcat(es, more, b, Some(cut));
    CoalesceStarts(given);
    CoalesceStarts(held);
    if SameSide(es, a, b) {
      BetweenSame(es, a, b, Some(cut));
      CoalesceGrows(held, |given|);
      assert held[..|given|] == given;
      assert rest == [] ==> given + rest == given;
    } else if Coalesce(given) == Coalesce(held) {
      OneStart(es, more, a, b, cut);
    }
  }

  /** The entries are no earlier than row `n` and no later than the last row. */
  ghost predicate Since(es: seq<Turn>, log: seq<Record>, n: nat) {
    forall e <- es :: n < |log| && log[n].ts <= e.ts <= log[|log| - 1].ts
  }

  /** A longer log adds entries at the end, from its further rows. */
  lemma {:induction false} EntriesGrow(log: seq<Record>, n: nat, peer: string) returns (more: seq<Turn>)
    requires Ticking(log) && n <= |log|
    ensures Entries(log, peer) == Entries(log[..n], peer) + more && Since(more, log, n)
    decreases |log|
  {
    if n == |log| {
      more := [];
      assert log[..n] == log;
    } else {
      var init, r := log[..|log| - 1], log[|log| - 1];
      var t := TurnOf(r, LastSender(init), peer);
      LastRow(log, n);
      more := EntriesGrow(init, n, peer);
      SinceStep(init, n, more, r, t);
      EntriesGrowOne(init, r, peer, Entries(init[..n], peer), more);
      more := more + if t.Some? then [t.value] else [];
    }
  }

  lemma LastRow(log: seq<Record>, n: nat)
    requires Ticking(log) && n < |log|
    ensures
      var init := log[..|log| - 1];
      Ticking(init) && log == init + [log[|log| - 1]] && init[..n] == log[..n]
  {
    TickingPrefix(log, |log| - 1);
  }

  lemma EntriesGrowOne(init: seq<Record>, r: Record, peer: string, es: seq<Turn>, more: seq<Turn>)
    requires Entries(init, peer) == es + more
    ensures
      var t := TurnOf(r, LastSender(init), peer);
      Entries(init + [r], peer) == es + (more + if t.Some? then [t.value] else [])
  {
    EntriesAppend(init, r, peer);
  }

  lemma SinceStep(init: seq<Record>, n: nat, more: seq<Turn>, r: Record, t: Option<Turn>)
    requires Since(more, init, n) && n <= |init| && Ticking(init + [r]) && (t.Some? ==> t.value.ts == r.ts)
    ensures Since(more + if t.Some? then [t.value] else [], init + [r], n)
  {
    var log := init + [r];
    assert log[|init|] == r && log[n].ts <= r.ts;
    forall e <- more ensures log[n].ts <= e.ts <= r.ts {
      assert log[n] == init[n] && log[|init| - 1] == init[|init| - 1];
    }
  }

  lemma OrderedEntries(log: seq<Record>, peer: string)
    requires Ticking(log)
    ensures Ordered(Entries(log, peer))
  {
    if log != [] {
      var now := log[|log| - 1].ts + 1.0;
      forall r <- log ensures r.ts < now {
        var i :| 0 <= i < |log| && log[i] == r;
      }
      EntriesTicking(log, peer, now);
    }
  }

  lemma NoneBetweenIff(es: seq<Turn>, b: real, cut: real)
    requires Before(es, cut)
    ensures Between(es, b, Some(cut)) == [] <==> forall e <- es :: e.ts < b
  {
    BetweenSubset(es, b, Some(cut));
    var found := Between(es, b, Some(cut));
    if found != [] { assert found[0] in found; }
  }

  lemma NotAmong(es: seq<Turn>, latest: seq<Turn>)
    requires Ordered(es + latest)
    ensures forall e <- latest :: e !in es && e in es + latest
  {
    forall e <- latest ensures e !in es && e in es + latest {
      var k :| 0 <= k < |latest| && latest[k] == e;
      assert (es + latest)[|es| + k] == e;
      forall i | 0 <= i < |es| ensures es[i] != e {
        assert (es + latest)[i] == es[i];
      }
    }
  }

  /** Of entries before the cut and entries after it, none lies in the range if none new is late enough. */
  lemma RestIsNew(es: seq<Turn>, latest: seq<Turn>, later: seq<Turn>, b: real, cut: real)
    requires Ordered(es + latest) && Before(latest, cut) && AtOrAfter(later, cut)
    ensures Between(latest + later, b, Some(cut)) == [] <==> forall e <- es + latest :: e in es || e.ts < b
  {
    BetweenConcat(latest, later, b, Some(cut));
    BetweenLate(later, b, cut);
    NoneBetweenIff(latest, b, cut);
    NotAmong(es, latest);
  }

  lemma FrozenSince(log: seq<Record>, n: nat, peer: string, lo: real, hi: real)
    requires Ticking(log) && n <= |log| && (n < |log| ==> hi <= log[n].ts)
    ensures Between(Entries(log, peer), lo, Some(hi)) == Between(Entries(log[..n], peer), lo, Some(hi))
  {
    forall i | n <= i < |log| ensures hi <= log[i].ts {
      if n < i { assert log[n].ts < log[i].ts; }
    }
    RangeIsFrozen(log, n, peer, lo, hi);
  }

  /** The row after a prefix is later than all of it. */
  lemma NextIsLater(log: seq<Record>, n: nat)
    requires Ticking(log) && n < |log|
    ensures Later(log[..n], log[n].ts)
  {
    forall r <- log[..n] ensures r.ts < log[n].ts {
      var i :| 0 <= i < n && log[..n][i] == r;
      assert log[i].ts < log[n].ts;
    }
  }

  lemma AfterClock(log: seq<Record>, n: nat, t: real, later: seq<Turn>)
    requires n <= |log| && ClockAt(log, n, t) && Since(later, log, n)
    ensures AtOrAfter(later, t)
  {
  }

  lemma BeforeClock(log: seq<Record>, n: nat, t: real, latest: seq<Turn>)
    requires Later(log, t) && Since(latest, log, n)
    ensures Before(latest, t)
  {
    forall e <- latest ensures e.ts < t {
      assert log[|log| - 1] in log;
    }
  }

  lemma SamePrefix<T>(es: seq<T>, more: seq<T>, latest: seq<T>, later: seq<T>)
    requires es + more == es + latest + later
    ensures more == latest + later
  {
    assert more == (es + more)[|es|..] && latest + later == (es + latest + later)[|es|..];
  }

  lemma RestAtClock(log: seq<Record>, at: nat, raw: nat, t0: real, peer: string, more: seq<Turn>)
    requires Ticking(log) && raw <= at <= |log| && ClockAt(log, at, t0)
    requires Entries(log, peer) == Entries(log[..raw], peer) + more
    ensures Between(more, Seam(Chain(log[..at], peer)), Some(t0)) == [] <==> NothingNew(log[..raw], log[..at], peer)
  {
    var second := log[..at];
    TickingPrefix(log, at);
    var later := EntriesGrow(log, at, peer);
    var latest := EntriesGrow(second, raw, peer);
    assert second[..raw] == log[..raw];
    SamePrefix(Entries(log[..raw], peer), more, latest, later);
    OrderedEntries(second, peer);
    BeforeClock(second, raw, t0, latest);
    AfterClock(log, at, t0, later);
    RestIsNew(Entries(log[..raw], peer), latest, later, Seam(Chain(second, peer)), t0);
  }

  lemma RestAtTurn(log: seq<Record>, ev: Event, svc: Services, more: seq<Turn>, b: real)
    requires Ticking(log) && Enabled(log, ev, svc) && ev.Commit?
    requires Since(more, log, ev.raw)
    requires SplitPoint(RawConversation(log[..ev.raw], ev.peer)) < |RawConversation(log[..ev.raw], ev.peer)|
    ensures Between(more, b, Some(NewSeam(log[..ev.raw], ev.peer, ev.t0))) == []
  {
    if ev.raw < |log| {
      TickingPrefix(log, ev.raw);
      NextIsLater(log, ev.raw);
      PartitionIsExact(log[..ev.raw], ev.peer, log[ev.raw].ts);
    }
    BetweenLate(more, b, NewSeam(log[..ev.raw], ev.peer, ev.t0));
  }

  lemma ReadsAgreeIff(log: seq<Record>, ev: Event, svc: Services, more: seq<Turn>)
    requires Ticking(log) && Enabled(log, ev, svc) && ev.Commit?
    requires Entries(log, ev.peer) == Entries(log[..ev.raw], ev.peer) + more
    requires Since(more, log, ev.raw)
    ensures
      var first, second := log[..ev.raw], log[..ev.at];
      var a, b := Seam(Chain(first, ev.peer)), Seam(Chain(second, ev.peer));
      ReadsAgree(log, ev) <==>
        SameSide(Entries(first, ev.peer), a, b) && Between(more, b, Some(NewSeam(first, ev.peer, ev.t0))) == []
  {
    var raw := RawConversation(log[..ev.raw], ev.peer);
    if SplitPoint(raw) < |raw| {
      RestAtTurn(log, ev, svc, more, Seam(Chain(log[..ev.at], ev.peer)));
    } else {
      RestAtClock(log, ev.at, ev.raw, ev.t0, ev.peer, more);
    }
  }

  /**
   However long the provider takes: what a compaction gives to the summarizer is all the talk that
   the log holds in the written range at the moment of writing, if and only if its reads agree.
   */
  lemma DraftIsExactIff(log: seq<Record>, ev: Event, svc: Services)
    requires Ticking(log) && Enabled(log, ev, svc) && ev.Commit?
    ensures
      var s := Written(log, ev, svc);
      Pre(log[..ev.raw], ev.peer) == Coalesce(Between(Entries(log, ev.peer), s.from, Some(s.until))) <==>
      ReadsAgree(log, ev)
  {
    var first, second, peer := log[..ev.raw], log[..ev.at], ev.peer;
    TickingPrefix(log, ev.raw);
    LaterPrefix(log, ev.raw, ev.at, ev.t0);
    PartitionIsExact(first, peer, ev.t0);
    var a, b, cut := Seam(Chain(first, peer)), Seam(Chain(second, peer)), NewSeam(first, peer, ev.t0);
    var more := EntriesGrow(log, ev.raw, peer);
    ReadsAgreeIff(log, ev, svc, more);
    OrderedEntries(log, peer);
    CoalesceStarts(Between(Entries(first, peer), a, Some(cut)));
    CoalesceSameIff(Entries(first, peer), more, a, b, cut);
  }

  lemma LoggedDraftIsExactIff(log: seq<Record>, i: nat, ev: Event, svc: Services)
    requires Ticking(log) && i < |log| && Enabled(log[..i], ev, svc) && ev.Commit?
    requires log[i] == Written(log[..i], ev, svc)
    ensures log[i].Summary? && ev.raw <= i
    ensures
      Pre(log[..i][..ev.raw], ev.peer) == Coalesce(Between(Entries(log, ev.peer), log[i].from, Some(log[i].until))) <==>
      ReadsAgree(log[..i], ev)
  {
    TickingPrefix(log, i);
    DraftIsExactIff(log[..i], ev, svc);
    WrittenInThePast(log[..i], ev, svc);
    FrozenSince(log, i, ev.peer, log[i].from, log[i].until);
  }

  /** The same of every compaction of a run, and of the log that the run leaves. */
  lemma RunDraftIsExactIff(events: seq<Event>, svc: Services, log: seq<Record>, i: nat)
    requires Reaches(events, svc, log) && i < |log| && events[i].Commit?
    ensures
      var ev, s := events[i], log[i];
      s.Summary? && ev.raw <= i &&
      (Pre(log[..i][..ev.raw], ev.peer) == Coalesce(Between(Entries(log, ev.peer), s.from, Some(s.until))) <==>
       ReadsAgree(log[..i], ev))
  {
    assert Writes(events, svc, log, i);
    RunTicks(events, svc, log);
    LoggedDraftIsExactIff(log, i, events[i], svc);
  }

  lemma CommitIsSourced(log: seq<Record>, i: nat, ev: Event, svc: Services)
    requires i < |log| && Ticking(log[..i]) && Enabled(log[..i], ev, svc) && ev.Commit? && ReadsAgree(log[..i], ev)
    requires log[i] == Written(log[..i], ev, svc)
    ensures WrittenFromTalk(log, i, svc, ev.t0)
  {
    DraftIsExactIff(log[..i], ev, svc);
  }

  lemma FoldedAreLogged(log: seq<Record>, n: nat, peer: string, cap: nat)
    requires n <= |log| && cap >= 2
    ensures forall x <- Oldest(Chain(log[..n], peer), cap) :: SummaryFor(x, peer) && x in log
  {
    SurvivorsFromLog(log[..n], peer);
    forall x <- Oldest(Chain(log[..n], peer), cap) ensures SummaryFor(x, peer) && x in log {
      assert x in Chain(log[..n], peer);
      assert x in log[..n];
    }
  }

  lemma FoldIsSourced(log: seq<Record>, i: nat, ev: Event, svc: Services)
    requires i < |log| && Enabled(log[..i], ev, svc) && ev.Fold? && WellFormed(log[..i][..ev.at])
    requires log[i] == Written(log[..i], ev, svc)
    ensures WrittenFromSummaries(log, i, svc, Oldest(Chain(log[..i][..ev.at], ev.peer), ev.lim.Cap()))
  {
    var folded := Oldest(Chain(log[..i][..ev.at], ev.peer), ev.lim.Cap());
    FoldInThePast(log[..i], ev.peer, ev.at, ev.lim.Cap(), ev.ts);
    FoldedAreLogged(log[..i], ev.at, ev.peer, ev.lim.Cap());
    GenerationBound(folded);
    assert TextIs(log[i], svc, svc.fold(ev.t, folded));
  }

  /** Every summary of a fitting run whose compactions read consistently stands for exactly its range. */
  lemma EverySummarySourced(events: seq<Event>, svc: Services, log: seq<Record>)
    requires Reaches(events, svc, log) && AllFit(log)
    requires forall i :: 0 <= i < |log| ==> ReadsAgree(log[..i], events[i])
    ensures AllSourced(log, svc)
  {
    FittingRun(events, svc, log, |log|);
    forall i | 0 <= i < |log| ensures Sourced(log, i, svc) {
      RowIsSourced(events, svc, log, i);
    }
  }

  lemma RowIsSourced(events: seq<Event>, svc: Services, log: seq<Record>, i: nat)
    requires Reaches(events, svc, log) && i < |log| && ReadsAgree(log[..i], events[i])
    requires forall k :: 0 <= k <= |log| ==> WellFormed(log[..k])
    ensures Sourced(log, i, svc)
  {
    var ev := events[i];
    assert Writes(events, svc, log, i);
    RowInThePast(events, svc, log, i);
    assert WellFormed(log[..i]);
    if ev.Commit? {
      CommitIsSourced(log, i, ev, svc);
    } else if ev.Fold? {
      assert log[..i][..ev.at] == log[..ev.at];
      FoldIsSourced(log, i, ev, svc);
    }
  }

  /** The talk a summary was written from never changes afterwards: later rows fall outside its range. */
  lemma {:induction false} RangeIsFrozen(log: seq<Record>, n: nat, peer: string, lo: real, hi: real)
    requires n <= |log| && forall i :: n <= i < |log| ==> hi <= log[i].ts
    ensures Between(Entries(log, peer), lo, Some(hi)) == Between(Entries(log[..n], peer), lo, Some(hi))
    decreases |log|
  {
    if n == |log| {
      assert log[..n] == log;
    } else {
      var init := log[..|log| - 1];
      RangeIsFrozen(init, n, peer, lo, hi);
      assert init[..n] == log[..n];
      FrozenByOne(log, peer, lo, hi);
    }
  }

  lemma FrozenByOne(log: seq<Record>, peer: string, lo: real, hi: real)
    requires log != [] && hi <= log[|log| - 1].ts
    ensures Between(Entries(log, peer), lo, Some(hi)) == Between(Entries(log[..|log| - 1], peer), lo, Some(hi))
  {
    var init, r := log[..|log| - 1], log[|log| - 1];
    var t := TurnOf(r, LastSender(init), peer);
    if t.Some? {
      BetweenDropsLate(Entries(init, peer), t.value, lo, hi);
    }
  }

  lemma BetweenDropsLate(es: seq<Turn>, e: Turn, lo: real, hi: real)
    requires hi <= e.ts
    ensures Between(es + [e], lo, Some(hi)) == Between(es, lo, Some(hi))
  {
    assert (es + [e])[..|es|] == es;
    assert Between(es, lo, Some(hi)) + [] == Between(es, lo, Some(hi));
  }

  /** A summary written from talk still says what the log says about its range, in every later log. */
  lemma TalkSummaryStaysTrue(log: seq<Record>, i: nat, svc: Services, t: real)
    requires Ticking(log) && i < |log| && log[i].Summary? && log[i].until <= log[i].ts
    requires WrittenFromTalk(log, i, svc, t)
    ensures
      var r := log[i];
      TextIs(r, svc, svc.summarize(t, Coalesce(Between(Entries(log, r.peer), r.from, Some(r.until)))))
  {
    FrozenSince(log, i, log[i].peer, log[i].from, log[i].until);
  }
}
