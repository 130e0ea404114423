/** Uninterrupted compactions are runs; overlapping ones can break the tiling, and here is how. */
module Overlap {
  import opened Prelude
  import opened SessionLog
  import opened ToolPairs
  import opened Compaction
  import opened Tiling
  import opened ChainRuns
  import opened Sources

  lemma Extend(events: seq<Event>, svc: Services, log: seq<Record>, ev: Event)
    requires Reaches(events, svc, log) && Enabled(log, ev, svc)
    ensures Reaches(events + [ev], svc, log + [Written(log, ev, svc)])
  {
    var es, out := events + [ev], log + [Written(log, ev, svc)];
    forall i | 0 <= i < |out| ensures Writes(es, svc, out, i) {
      if i < |log| {
        assert Writes(events, svc, log, i);
        assert out[..i] == log[..i];
      } else {
        assert out[..i] == log;
      }
    }
  }

  /** The events of `more` meet nobody and read one state of the log. */
  ghost predicate Alone(events: seq<Event>, log: seq<Record>, n: nat) {
    n <= |events| == |log| &&
    forall i :: n <= i < |log| ==> Undisturbed(log[..i], events[i]) && ReadsAgree(log[..i], events[i])
  }

  lemma AloneExtends(events: seq<Event>, log: seq<Record>, n: nat, ev: Event, r: Record)
    requires Alone(events, log, n) && Undisturbed(log, ev) && ReadsAgree(log, ev)
    ensures Alone(events + [ev], log + [r], n)
  {
    forall i | n <= i < |log| + 1
      ensures (log + [r])[..i] == if i < |log| then log[..i] else log
    {
    }
  }

  lemma FoldIsAnEvent(events: seq<Event>, svc: Services, log: seq<Record>, n: nat, peer: string, lim: Limits, ts: real)
    returns (out: seq<Event>)
    requires Reaches(events, svc, log) && Alone(events, log, n) && Later(log, ts)
    ensures Reaches(out, svc, FoldStep(log, peer, lim.Cap(), svc, ts)) && events <= out
    ensures Alone(out, FoldStep(log, peer, lim.Cap(), svc, ts), n)
  {
    out := events;
    var folded, ev := Oldest(Chain(log, peer), lim.Cap()), Fold(peer, lim, |log|, ts, ts);
    if folded != [] && svc.fold(ts, folded).Some? {
      assert log[..|log|] == log;
      Extend(events, svc, log, ev);
      AloneExtends(events, log, n, ev, Written(log, ev, svc));
      out := events + [ev];
    }
  }

  lemma CommitIsAnEvent(events: seq<Event>, svc: Services, log: seq<Record>, peer: string, lim: Limits, body: string,
                        t0: real, t1: real, t2: real) returns (out: seq<Event>)
    requires Reaches(events, svc, log) && Later(log, t0) && t0 < t1 < t2
    requires OverBudget(log, peer, lim) && Pre(log, peer) != [] && svc.summarize(t0, Pre(log, peer)) == Some(body)
    ensures
      var mid := log + [Compacted(log, peer, body, svc, t0, t1)];
      Reaches(out, svc, mid) && events <= out && Alone(out, mid, |log|) && Later(mid, t2)
  {
    var n := |log|;
    var ev := Commit(peer, lim, n, n, n, t0, t1);
    assert log[..n] == log;
    Extend(events, svc, log, ev);
    AloneExtends(events, log, n, ev, Written(log, ev, svc));
    out := events + [ev];
  }

  /** One call that nothing interrupts leaves what the store's methods compute: at most two events of a run. */
  lemma CallIsARun(events: seq<Event>, svc: Services, log: seq<Record>, peer: string, lim: Limits,
                   t0: real, t1: real, t2: real) returns (out: seq<Event>)
    requires Reaches(events, svc, log) && Later(log, t0) && t0 < t1 < t2
    ensures Reaches(out, svc, CompactStep(log, peer, lim, svc, t0, t1, t2)) && events <= out
    ensures Alone(out, CompactStep(log, peer, lim, svc, t0, t1, t2), |log|)
  {
    out := events;
    if OverBudget(log, peer, lim) {
      if Pre(log, peer) == [] {
        out := FoldIsAnEvent(events, svc, log, |log|, peer, lim, t2);
      } else {
        var text := svc.summarize(t0, Pre(log, peer));
        if text.Some? {
          out := CommitIsAnEvent(events, svc, log, peer, lim, text.value, t0, t1, t2);
          var mid := log + [Compacted(log, peer, text.value, svc, t0, t1)];
          out := FoldIsAnEvent(out, svc, mid, |log|, peer, lim, t2);
        }
      }
    }
  }

  // --------------------------------------------------------- a talk with "u"

  const USER := "u"
  const LIMITS := Limits(1, 0, None)

  /** Lines at 1, 2, 3, ...; the first is the bot's when `first` is odd. */
  function Said(first: nat, k: nat): Record {
    Line((k + 1) as real, if (first + k) % 2 == 0 then In(USER) else Out, USER, "x", "", false, false, false)
  }

  function Talked(first: nat, n: nat): (log: seq<Record>)
    ensures |log| == n
  {
    seq(n, k requires 0 <= k < n => Said(first, k))
  }

  function Turns(first: nat, n: nat): (turns: seq<Turn>)
    ensures |turns| == n
  {
    seq(n, k requires 0 <= k < n => TurnAt(first, k))
  }

  function Logs(first: nat, n: nat): (events: seq<Event>)
    ensures |events| == n
  {
    seq(n, k requires 0 <= k < n => Log(Said(first, k)))
  }

  lemma TalkReaches(first: nat, n: nat, svc: Services)
    ensures Reaches(Logs(first, n), svc, Talked(first, n)) && Later(Talked(first, n), n as real + 0.5)
  {
    var events, log := Logs(first, n), Talked(first, n);
    forall i | 0 <= i < n ensures Writes(events, svc, log, i) {
      assert forall r <- log[..i] :: r.ts < (i + 1) as real;
    }
  }

  function TurnAt(first: nat, k: nat): Turn {
    Turn(if (first + k) % 2 == 0 then User else Assistant, "x", (k + 1) as real)
  }

  lemma SaidTurn(first: nat, k: nat, lastSender: string)
    ensures TurnOf(Said(first, k), lastSender, USER) == Some(TurnAt(first, k))
  {
  }

  lemma TalkGrows(first: nat, n: nat)
    ensures Talked(first, n + 1) == Talked(first, n) + [Said(first, n)]
    ensures Turns(first, n + 1) == Turns(first, n) + [TurnAt(first, n)]
  {
  }

  lemma {:induction false} TalkEntries(first: nat, n: nat)
    ensures Entries(Talked(first, n), USER) == Turns(first, n)
  {
    if n > 0 {
      var log := Talked(first, n - 1);
      TalkEntries(first, n - 1);
      TalkGrows(first, n - 1);
      EntriesAppend(log, Said(first, n - 1), USER);
      SaidTurn(first, n - 1, LastSender(log));
    }
  }

  lemma {:induction false} CoalesceSame(es: seq<Turn>)
    requires Alternates(es)
    ensures Coalesce(es) == es
  {
    if es != [] {
      var init := es[..|es| - 1];
      CoalesceSame(init);
      assert es == init + [es[|es| - 1]];
    }
  }

  lemma {:induction false} NoSummaries(log: seq<Record>)
    requires forall r <- log :: r.Line?
    ensures Chain(log, USER) == []
  {
    assert forall i :: 0 <= i < |log| ==> log[i] in log;
    ChainQuiet(log, 0, USER);
    assert log[..0] == [] && Chain([], USER) == [];
  }

  lemma TurnsKept(first: nat, n: nat)
    ensures Between(Turns(first, n), 0.0, None) == Turns(first, n)
  {
    var es := Turns(first, n);
    forall e <- es ensures 0.0 <= e.ts {
      var i :| 0 <= i < n && es[i] == e;
    }
    BetweenAll(es, 0.0);
  }

  lemma TurnsAlternate(first: nat, n: nat)
    ensures Alternates(Turns(first, n))
  {
    forall i | 0 <= i < n - 1 ensures Turns(first, n)[i].role != Turns(first, n)[i + 1].role {}
  }

  lemma TurnsCoalesce(first: nat, n: nat)
    ensures Coalesce(Between(Turns(first, n), 0.0, None)) == Turns(first, n)
  {
    TurnsKept(first, n);
    TurnsAlternate(first, n);
    CoalesceSame(Turns(first, n));
  }

  lemma TalkRaw(first: nat, n: nat)
    ensures Chain(Talked(first, n), USER) == [] && RawConversation(Talked(first, n), USER) == Turns(first, n)
  {
    NoSummaries(Talked(first, n));
    TalkEntries(first, n);
    TurnsCoalesce(first, n);
  }

  /** Any talk at all is over the limits. */
  lemma TalkIsOver(first: nat, n: nat)
    requires n > 0
    ensures OverBudget(Talked(first, n), USER, LIMITS)
  {
    TalkRaw(first, n);
  }

  lemma TurnsSplit(first: nat, n: nat)
    requires n >= 3 && (first + n) % 2 == 1
    ensures SplitPoint(Turns(first, n)) == n - 1
  {
    var raw := Turns(first, n);
    assert raw[n - 1].role == User && raw[n - 1].text == "x";
    assert LastRealUser(raw) == n - 1;
    HoldUnique(raw, n - 1, n - 1);
  }

  // --------------------------------------------------------- what goes wrong

  lemma NoBoundaryBetween(chain: seq<Record>, longer: Record, t: real)
    requires SortedByUntil(chain) && SortedByUntil(chain + [longer]) && Seam(chain) < t < longer.until && 0.0 < t
    ensures !Boundary(chain + [longer], t)
  {
    forall r <- chain ensures r.until <= Seam(chain) {}
  }

  /**
   Two compactions that read the same seam, the shorter range written last: it does not fit, and
   everything in it is represented twice.
   */
  lemma LateShorterBreaks(log: seq<Record>, longer: Record, shorter: Record)
    requires WellFormed(log) && Later(log, longer.ts) && longer.Summary?
    requires shorter.Summary? && shorter.peer == longer.peer
    requires shorter.from == longer.from == Seam(Chain(log, longer.peer))
    requires shorter.from < shorter.until < longer.until <= longer.ts < shorter.ts
    ensures !Fits(Chain(log + [longer], longer.peer), shorter)
    ensures !Tiles(Chain(log + [longer] + [shorter], longer.peer))
  {
    var chain := Chain(log, longer.peer);
    CompactionExtends(log, longer);
    assert PeerOk(log + [longer], longer.peer);
    NoBoundaryBetween(chain, longer, shorter.until);
    CommitTilesIff(log + [longer], shorter, longer.peer);
  }

  /** A provider that always answers. */
  function Anything(): Services {
    Services((_, _) => Some("s"), (_, _) => Some("f"), (_, _) => "", _ => "")
  }

  /** The compaction that reads the talk at `n` lines and is written at time `t1`. */
  function ReadAt(n: nat, t1: real): Event {
    Commit(USER, LIMITS, n, n, n, n as real + 0.5, t1)
  }

  lemma PreOf(log: seq<Record>, peer: string, raw: seq<Turn>, k: nat, now: real)
    requires RawConversation(log, peer) == raw && SplitPoint(raw) == k
    ensures Pre(log, peer) == raw[..k] && NewSeam(log, peer, now) == if k < |raw| then raw[k].ts else now
  {
  }

  lemma ReadAtPre(n: nat)
    requires n >= 3 && n % 2 == 1
    ensures
      var log := Talked(0, n);
      Pre(log, USER) != [] && Seam(Chain(log, USER)) == 0.0 && NewSeam(log, USER, n as real + 0.5) == n as real
  {
    TalkRaw(0, n);
    TurnsSplit(0, n);
    PreOf(Talked(0, n), USER, Turns(0, n), n - 1, n as real + 0.5);
  }

  lemma ReadAtEnabled(log: seq<Record>, n: nat, t1: real)
    requires n <= |log| && log[..n] == Talked(0, n) && n >= 3 && n % 2 == 1
    requires Later(log, t1) && n as real + 0.5 < t1 && forall k :: n <= k < |log| ==> n as real + 0.5 < log[k].ts
    ensures Enabled(log, ReadAt(n, t1), Anything())
    ensures Written(log, ReadAt(n, t1), Anything()) ==
      Summary(t1, USER, SUMMARY_PREFIX + "" + "s", "", 0.0, n as real, 1)
  {
    TalkReaches(0, n, Anything());
    TalkIsOver(0, n);
    ReadAtPre(n);
  }

  function Range(n: nat, t1: real): Record {
    Summary(t1, USER, SUMMARY_PREFIX + "" + "s", "", 0.0, n as real, 1)
  }

  lemma FiveLines() returns (events: seq<Event>, log: seq<Record>)
    ensures Reaches(events, Anything(), log) && WellFormed(log) && Chain(log, USER) == []
    ensures log == Talked(0, 5) && Later(log, 5.5) && events == Logs(0, 5)
  {
    events, log := Logs(0, 5), Talked(0, 5);
    TalkReaches(0, 5, Anything());
    forall i | 0 <= i < 5 ensures Fitted(log, i) {
      assert log[i].Line?;
    }
    FittingRun(events, Anything(), log, 5);
    assert log[..5] == log;
    NoSummaries(log);
  }

  /** Two live ranges over one moment. */
  lemma CoveredTwice(chain: seq<Record>, a: Record, b: Record, ts: real)
    requires (forall r <- chain :: r.Summary?) && multiset(chain) == multiset{a, b}
    requires a.Summary? && b.Summary? && a.from <= ts < a.until && b.from <= ts < b.until
    ensures CoverCount(chain, ts) == 2
  {
    assert |chain| == |multiset(chain)| == 2;
    assert chain[0] in multiset(chain) && chain[1] in multiset(chain);
    var init := chain[..1];
    assert init == [chain[0]] && init[..0] == [];
    assert CoverCount(init[..0], ts) == 0;
    assert CoverCount(init, ts) == 1;
  }

  lemma DropOne(small: Record, big: Record)
    requires !Contains(big, small)
    ensures Drop([small], big) == [small]
  {
    assert [small][..0] == [];
  }

  lemma BothLive(log: seq<Record>, longer: Record, shorter: Record, chain: seq<Record>)
    requires chain == Chain(log, USER) == [longer] && SummaryFor(shorter, USER) && !Contains(shorter, longer)
    ensures multiset(Chain(log + [shorter], USER)) == multiset{longer, shorter}
  {
    ChainMembers(log, shorter, USER);
    DropOne(longer, shorter);
  }

  lemma ReadAtWrites(events: seq<Event>, log: seq<Record>, n: nat, t1: real)
    requires Reaches(events, Anything(), log) && n <= |log| && log[..n] == Talked(0, n) && n >= 3 && n % 2 == 1
    requires Later(log, t1) && n as real + 0.5 < t1 && forall k :: n <= k < |log| ==> n as real + 0.5 < log[k].ts
    ensures Reaches(events + [ReadAt(n, t1)], Anything(), log + [Range(n, t1)])
  {
    ReadAtEnabled(log, n, t1);
    Extend(events, Anything(), log, ReadAt(n, t1));
  }

  /** Five lines, then the compaction that read after five, then the one that read after three. */
  lemma OverlapRuns(lines: seq<Event>, talk: seq<Record>)
    requires Reaches(lines, Anything(), talk) && talk == Talked(0, 5) && Later(talk, 5.5)
    ensures Reaches(lines + [ReadAt(5, 6.0)] + [ReadAt(3, 7.0)], Anything(), talk + [Range(5, 6.0)] + [Range(3, 7.0)])
  {
    assert talk[..5] == talk;
    ReadAtWrites(lines, talk, 5, 6.0);
    var mid := talk + [Range(5, 6.0)];
    assert mid[..3] == Talked(0, 3) && mid[3] == Said(0, 3) && mid[4] == Said(0, 4) && mid[5] == Range(5, 6.0);
    ReadAtWrites(lines + [ReadAt(5, 6.0)], mid, 3, 7.0);
  }

  /**
   A run in which an overlap breaks the tiling: of two compactions that read the same seam, the
   one that read first writes last. What was said at 1 is then represented twice.
   */
  lemma OverlapBreaksTheTiling() returns (events: seq<Event>, log: seq<Record>)
    ensures Reaches(events, Anything(), log)
    ensures !Tiles(Chain(log, USER)) && CoverCount(Chain(log, USER), 1.0) == 2
  {
    var longer, shorter := Range(5, 6.0), Range(3, 7.0);
    var lines, talk := FiveLines();
    OverlapRuns(lines, talk);
    events, log := lines + [ReadAt(5, 6.0)] + [ReadAt(3, 7.0)], talk + [longer] + [shorter];
    LateShorterBreaks(talk, longer, shorter);
    CompactionExtends(talk, longer);
    BothLive(talk + [longer], longer, shorter, Chain(talk + [longer], USER));
    CoveredTwice(Chain(log, USER), longer, shorter, 1.0);
  }

  // ------------------------------------------------- a line between two reads

  /** Only the bot has spoken when the thread is read; a user line lands before the clock is read. */
  const SPLIT_READ := Commit(USER, LIMITS, 1, 1, 2, 2.5, 3.0)

  const LATE_RANGE := Summary(3.0, USER, SUMMARY_PREFIX + "" + "s", "", 0.0, 2.5, 1)

  lemma BotTurnSplit(raw: seq<Turn>, bot: Turn)
    requires raw == [bot] && bot.role == Assistant
    ensures SplitPoint(raw) == 1
  {
    assert LastRealUser(raw) == -1;
  }

  lemma BotTurnRaw(log: seq<Record>, bot: Turn)
    requires log == Talked(1, 1) && bot == TurnAt(1, 0)
    ensures RawConversation(log, USER) == [bot]
  {
    TalkRaw(1, 1);
    assert Turns(1, 1) == [bot];
  }

  /** With nothing to stay verbatim, all of the thread is summarized and the range ends at the clock. */
  lemma PreOfAll(log: seq<Record>, peer: string, raw: seq<Turn>, now: real)
    requires RawConversation(log, peer) == raw && SplitPoint(raw) == |raw|
    ensures Pre(log, peer) == raw && NewSeam(log, peer, now) == now
  {
    PreOf(log, peer, raw, |raw|, now);
    assert raw[..|raw|] == raw;
  }

  lemma SplitReadPre(log: seq<Record>, peer: string, bot: Turn, now: real)
    requires RawConversation(log, peer) == [bot] && bot.role == Assistant
    ensures Pre(log, peer) == [bot] && NewSeam(log, peer, now) == now
  {
    BotTurnSplit([bot], bot);
    PreOfAll(log, peer, [bot], now);
  }

  lemma SplitReadWrites()
    ensures Reaches(Logs(1, 2) + [SPLIT_READ], Anything(), Talked(1, 2) + [LATE_RANGE])
  {
    var log := Talked(1, 2);
    assert log[..2] == log && log[..1] == Talked(1, 1);
    TalkReaches(1, 2, Anything());
    TalkIsOver(1, 1);
    BotTurnRaw(log[..1], TurnAt(1, 0));
    SplitReadPre(log[..1], USER, TurnAt(1, 0), 2.5);
    TalkRaw(1, 2);
    Extend(Logs(1, 2), Anything(), log, SPLIT_READ);
  }

  lemma LateFits()
    ensures AllFit(Talked(1, 2) + [LATE_RANGE])
    ensures Chain(Talked(1, 2) + [LATE_RANGE], USER) == [LATE_RANGE]
  {
    var talk := Talked(1, 2);
    var log := talk + [LATE_RANGE];
    NoSummaries(talk);
    AtSeamSpans([], LATE_RANGE);
    ChainInsert(talk, LATE_RANGE, USER, 0, 0);
    assert log[..2] == talk;
    forall i | 0 <= i < 3 ensures Fitted(log, i) {
      if i < 2 { assert log[i] == Said(1, i); }
    }
  }

  lemma LateEntries()
    ensures Entries(Talked(1, 2) + [LATE_RANGE], USER) == [TurnAt(1, 0), TurnAt(1, 1)]
  {
    TalkEntries(1, 2);
    EntriesAppend(Talked(1, 2), LATE_RANGE, USER);
    assert Turns(1, 2) == [TurnAt(1, 0), TurnAt(1, 1)];
  }

  lemma LateCover()
    ensures CoverCount([LATE_RANGE], 2.0) == 1
  {
    assert [LATE_RANGE][..0] == [] && CoverCount([LATE_RANGE][..0], 2.0) == 0;
  }

  lemma LateUnread(log: seq<Record>)
    requires log == Talked(1, 2) + [LATE_RANGE]
    ensures TurnAt(1, 1) !in Pre(log[..SPLIT_READ.raw], USER)
  {
    assert log[..1] == Talked(1, 1);
    BotTurnRaw(log[..1], TurnAt(1, 0));
    SplitReadPre(log[..1], USER, TurnAt(1, 0), 2.5);
  }

  /**
   Why the reads must agree: the user's line is inside the written range and so out of the tail,
   but it was not in what the summarizer was given, although every range fits.
   */
  lemma LineBetweenReadsIsLost() returns (events: seq<Event>, log: seq<Record>, e: Turn)
    ensures Reaches(events, Anything(), log) && AllFit(log) && |log| == 3 && events[2] == SPLIT_READ
    ensures e in Entries(log, USER) && e !in Pre(log[..SPLIT_READ.raw], USER)
    ensures CoverCount(Chain(log, USER), e.ts) == 1
  {
    events, log, e := Logs(1, 2) + [SPLIT_READ], Talked(1, 2) + [LATE_RANGE], TurnAt(1, 1);
    SplitReadWrites();
    LateUnread(log);
    LateFits();
    LateEntries();
    LateCover();
  }

  // ------------------------------------------------- a seam that moves between two reads

  /** The compaction that reads the first line as the thread, `at` rows for the seam, and the clock. */
  function TakeAt(at: nat, t0: real, t1: real): Event {
    Commit(USER, LIMITS, 1, 1, at, t0, t1)
  }

  function Take(from: real, until: real, ts: real): Record {
    Summary(ts, USER, SUMMARY_PREFIX + "" + "s", "", from, until, 1)
  }

  /** The thread is one line of the bot, and over its limits. */
  ghost predicate OneTurn(log: seq<Record>, bot: Turn) {
    RawConversation(log, USER) == [bot] && bot.role == Assistant && OverBudget(log, USER, LIMITS)
  }

  lemma TalkIsOneTurn(first: nat, n: nat)
    requires first % 2 == 1 && n == 1
    ensures OneTurn(Talked(first, n), TurnAt(first, 0))
  {
    TalkIsOver(first, n);
    TalkRaw(first, n);
    assert Turns(first, n) == [TurnAt(first, 0)];
  }

  lemma FitsAppend(log: seq<Record>, r: Record)
    requires AllFit(log) && (r.Summary? ==> Fits(Chain(log, r.peer), r))
    ensures AllFit(log + [r])
  {
    var out := log + [r];
    forall i | 0 <= i < |out| ensures Fitted(out, i) {
      if i < |log| {
        assert out[..i] == log[..i] && Fitted(log, i);
      } else {
        assert out[..i] == log;
      }
    }
  }

  /** A run whose summaries all fit. */
  ghost predicate Fine(events: seq<Event>, log: seq<Record>) {
    Reaches(events, Anything(), log) && AllFit(log) && WellFormed(log)
  }

  /** Such a compaction, with the whole log read for the seam, written at once. */
  lemma TakeExtends(events: seq<Event>, log: seq<Record>, talk: seq<Record>, bot: Turn, t0: real, t1: real, s: Record)
    requires Fine(events, log) && |log| >= 1 && log[..1] == talk && OneTurn(talk, bot)
    requires Later(log, t0) && Seam(Chain(log, USER)) < t0 < t1 && s == Take(Seam(Chain(log, USER)), t0, t1)
    ensures Fine(events + [TakeAt(|log|, t0, t1)], log + [s]) && Chain(log + [s], USER) == Chain(log, USER) + [s]
  {
    TakeRuns(events, log, talk, bot, t0, t1, s);
    assert PeerOk(log, USER);
    AtSeamSpans(Chain(log, USER), s);
    FitsAppend(log, s);
    CompactionExtends(log, s);
  }

  lemma TakeEnabled(log: seq<Record>, talk: seq<Record>, bot: Turn, t0: real, t1: real)
    requires |log| >= 1 && log[..1] == talk && OneTurn(talk, bot) && Later(log, t0) && t0 < t1
    ensures Enabled(log, TakeAt(|log|, t0, t1), Anything())
  {
    SplitReadPre(talk, USER, bot, t0);
    assert log[..|log|] == log;
  }

  lemma TakeWrites(log: seq<Record>, talk: seq<Record>, bot: Turn, t0: real, t1: real)
    requires Enabled(log, TakeAt(|log|, t0, t1), Anything()) && |log| >= 1 && log[..1] == talk && OneTurn(talk, bot)
    ensures Written(log, TakeAt(|log|, t0, t1), Anything()) == Take(Seam(Chain(log, USER)), t0, t1)
  {
    SplitReadPre(talk, USER, bot, t0);
    assert log[..|log|] == log;
  }

  lemma TakeRuns(events: seq<Event>, log: seq<Record>, talk: seq<Record>, bot: Turn, t0: real, t1: real, s: Record)
    requires Reaches(events, Anything(), log) && |log| >= 1 && log[..1] == talk && OneTurn(talk, bot)
    requires Later(log, t0) && t0 < t1 && s == Take(Seam(Chain(log, USER)), t0, t1)
    ensures Reaches(events + [TakeAt(|log|, t0, t1)], Anything(), log + [s])
  {
    TakeEnabled(log, talk, bot, t0, t1);
    TakeWrites(log, talk, bot, t0, t1);
    Extend(events, Anything(), log, TakeAt(|log|, t0, t1));
  }

  /** Nothing but lines. */
  ghost predicate Unsummarized(events: seq<Event>, log: seq<Record>, now: real) {
    Fine(events, log) && Later(log, now) && Chain(log, USER) == []
  }

  lemma OneLine(now: real)
    requires 1.5 <= now
    ensures Unsummarized(Logs(1, 1), Talked(1, 1), now)
  {
    var events, talk := Logs(1, 1), Talked(1, 1);
    TalkReaches(1, 1, Anything());
    forall i | 0 <= i < |talk| ensures Fitted(talk, i) {
      assert talk[i] == Said(1, i);
    }
    FittingRun(events, Anything(), talk, 1);
    assert talk[..1] == talk;
    NoSummaries(talk);
  }

  lemma FirstTake(lines: seq<Event>, talk: seq<Record>, bot: Turn, t0: real, t1: real, t2: real, a: Record)
    requires |talk| == 1 && Unsummarized(lines, talk, t0) && OneTurn(talk, bot)
    requires t0 < t1 < t2 && a == Take(0.0, t0, t1)
    ensures Fine(lines + [TakeAt(1, t0, t1)], talk + [a]) && Chain(talk + [a], USER) == [a] && Later(talk + [a], t2)
  {
    assert talk[..1] == talk && [] + [a] == [a];
    TakeExtends(lines, talk, talk, bot, t0, t1, a);
  }

  lemma SecondTake(events: seq<Event>, log: seq<Record>, talk: seq<Record>, bot: Turn, t2: real, t3: real,
                   a: Record, b: Record)
    requires Fine(events, log) && |log| == 2 && log[..1] == talk && OneTurn(talk, bot) && Later(log, t2)
    requires a.Summary? && a.until < t2 < t3 && Chain(log, USER) == [a] && b == Take(a.until, t2, t3)
    ensures Fine(events + [TakeAt(2, t2, t3)], log + [b]) && Chain(log + [b], USER) == [a, b]
  {
    assert [a] + [b] == [a, b];
    TakeExtends(events, log, talk, bot, t2, t3, b);
  }

  lemma TwoTakes(lines: seq<Event>, talk: seq<Record>, bot: Turn, t0: real, t1: real, t2: real, t3: real,
                 a: Record, b: Record)
    requires |talk| == 1 && Unsummarized(lines, talk, t0) && OneTurn(talk, bot) && t0 < t1 < t2 < t3
    requires a == Take(0.0, t0, t1) && b == Take(t0, t2, t3)
    ensures Fine(lines + [TakeAt(1, t0, t1)] + [TakeAt(2, t2, t3)], talk + [a] + [b])
    ensures Chain(talk + [a] + [b], USER) == [a, b]
  {
    FirstTake(lines, talk, bot, t0, t1, t2, a);
    PrefixOf(talk, a);
    SecondTake(lines + [TakeAt(1, t0, t1)], talk + [a], talk, bot, t2, t3, a, b);
  }

  lemma PrefixOf(talk: seq<Record>, a: Record)
    ensures (talk + [a])[..|talk|] == talk
  {
  }

  lemma FineTiles(events: seq<Event>, log: seq<Record>)
    requires Fine(events, log)
    ensures Reaches(events, Anything(), log) && AllFit(log) && Tiles(Chain(log, USER))
  {
    assert PeerOk(log, USER);
  }

  lemma TakesOf(lines: seq<Event>, talk: seq<Record>, bot: Turn, t0: real, t1: real, t2: real, t3: real)
    returns (events: seq<Event>, log: seq<Record>, a: Record, b: Record)
    requires |lines| == |talk| == 1 && Unsummarized(lines, talk, t0) && OneTurn(talk, bot) && t0 < t1 < t2 < t3
    ensures Fine(events, log) && |events| == 3 && events[1..] == [TakeAt(1, t0, t1), TakeAt(2, t2, t3)]
    ensures |log| == 3 && log[1..] == [a, b] == Chain(log, USER) && log[..1] == talk
  {
    a, b := Take(0.0, t0, t1), Take(t0, t2, t3);
    TwoTakes(lines, talk, bot, t0, t1, t2, t3, a, b);
    TwoMore(lines, TakeAt(1, t0, t1), TakeAt(2, t2, t3));
    TwoMore(talk, a, b);
    events, log := lines + [TakeAt(1, t0, t1)] + [TakeAt(2, t2, t3)], talk + [a] + [b];
  }

  lemma TwoMore<T>(xs: seq<T>, x: T, y: T)
    requires |xs| == 1
    ensures |xs + [x] + [y]| == 3 && (xs + [x] + [y])[1..] == [x, y] && (xs + [x] + [y])[..1] == xs
  {
  }

  /**
   Why no entry may lie between the seams: both summaries were written from the one line there is,
   although the ranges fit and tile.
   */
  lemma SameTalkTwice(t0: real, t1: real, t2: real, t3: real)
    returns (events: seq<Event>, log: seq<Record>, a: Record, b: Record, bot: Turn)
    requires 1.5 <= t0 < t1 < t2 < t3
    ensures Reaches(events, Anything(), log) && AllFit(log)
    ensures |events| == 3 && events[1..] == [TakeAt(1, t0, t1), TakeAt(2, t2, t3)]
    ensures |log| == 3 && log[1..] == [a, b] == Chain(log, USER) && Tiles([a, b])
    ensures Pre(log[..1], USER) == [bot]
  {
    TalkIsOneTurn(1, 1);
    OneLine(t0);
    bot := TurnAt(1, 0);
    events, log, a, b := TakesOf(Logs(1, 1), Talked(1, 1), bot, t0, t1, t2, t3);
    FineTiles(events, log);
    SplitReadPre(log[..1], USER, bot, t2);
  }
}
