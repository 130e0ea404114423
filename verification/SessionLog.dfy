/**
 The append-only session log and the two views rebuilt from it: the live chain
 of compaction summaries, and the coalesced 1:1 conversation after the seam.
 */
module SessionLog {
  import opened Prelude

  datatype Speaker = Out | In(sender: string) | NotChat

  /** A log row: a line of talk (or a card), or a compaction summary over [from, until). */
  datatype Record =
    | Line(ts: real, speaker: Speaker, peer: string, text: string, note: string,
           room: bool, thread: bool, ack: bool)
    | Summary(ts: real, peer: string, text: string, durable: string,
              from: real, until: real, generation: nat)

  // ---------------------------------------------------------------- entries

  /** Rows that map to a main-line chat turn of some peer. */
  predicate Talk(r: Record) {
    r.Line? && !r.room && !r.thread && !r.ack && !r.speaker.NotChat?
  }

  function Sender(r: Record): string
    requires Talk(r) && r.speaker.In?
  {
    if r.peer != "" then r.peer else r.speaker.sender
  }

  /** Who spoke last before the end of `log`: the owner of replies that carry no peer. */
  function LastSender(log: seq<Record>): string {
    if log == [] then ""
    else
      var r := log[|log| - 1];
      if Talk(r) && r.speaker.In? then Sender(r) else LastSender(log[..|log| - 1])
  }

  function Body(r: Record): string
    requires r.Line?
  {
    if r.note == "" then r.text else if r.text == "" then r.note else r.text + "\n" + r.note
  }

  /** The turn that row `r` adds to the thread with `peer`; `lastSender` is the state before it. */
  function TurnOf(r: Record, lastSender: string, peer: string): Option<Turn> {
    if !Talk(r) then None
    else
      var owner := if r.speaker.In? then Sender(r) else if r.peer != "" then r.peer else lastSender;
      if owner != peer || Body(r) == "" then None
      else Some(Turn(if r.speaker.In? then User else Assistant, Body(r), r.ts))
  }

  /** Every chat turn of the thread with `peer`, one per row, in log order. */
  function Entries(log: seq<Record>, peer: string): seq<Turn> {
    if log == [] then []
    else
      var before := log[..|log| - 1];
      match TurnOf(log[|log| - 1], LastSender(before), peer)
      case Some(t) => Entries(before, peer) + [t]
      case None => Entries(before, peer)
  }

  /** The entries with lo <= ts < hi; without `hi`, everything from `lo` on. */
  function Between(es: seq<Turn>, lo: real, hi: Option<real>): seq<Turn> {
    if es == [] then []
    else
      var e := es[|es| - 1];
      Between(es[..|es| - 1], lo, hi) +
      if lo <= e.ts && (hi.Some? ==> e.ts < hi.value) then [e] else []
  }

  /** Append an entry, merging it into a trailing turn of the same role. */
  function Push(turns: seq<Turn>, e: Turn): seq<Turn> {
    var n := |turns|;
    if n > 0 && turns[n - 1].role == e.role then
      turns[..n - 1] + [turns[n - 1].(text := turns[n - 1].text + "\n\n" + e.text)]
    else
      turns + [e]
  }

  function Coalesce(es: seq<Turn>): seq<Turn> {
    if es == [] then [] else Push(Coalesce(es[..|es| - 1]), es[|es| - 1])
  }

  ghost predicate Alternates(turns: seq<Turn>) {
    forall i :: 0 <= i < |turns| - 1 ==> turns[i].role != turns[i + 1].role
  }

  // ------------------------------------------------------------ the chain

  predicate SummaryFor(r: Record, peer: string) {
    r.Summary? && r.peer == peer
  }

  function Summaries(log: seq<Record>, peer: string): seq<Record>
    ensures forall r <- Summaries(log, peer) :: SummaryFor(r, peer) && r in log
  {
    if log == [] then []
    else
      Summaries(log[..|log| - 1], peer) +
      if SummaryFor(log[|log| - 1], peer) then [log[|log| - 1]] else []
  }

  /** The range of `big` contains the range of `small`. */
  predicate Contains(big: Record, small: Record) {
    big.Summary? && small.Summary? && big.from <= small.from && small.until <= big.until
  }

  predicate Superseded(rs: seq<Record>, k: nat)
    requires k < |rs|
  {
    exists j :: k < j < |rs| && Contains(rs[j], rs[k])
  }

  /** The rows among the first `i` of `rs` that no later row of `rs` supersedes. */
  function Survivors(rs: seq<Record>, i: nat): (live: seq<Record>)
    requires i <= |rs|
    ensures forall r <- live :: r in rs[..i]
  {
    if i == 0 then [] else Survivors(rs, i - 1) + if Superseded(rs, i - 1) then [] else [rs[i - 1]]
  }

  predicate SortedByUntil(rs: seq<Record>) {
    (forall r <- rs :: r.Summary?) &&
    forall i, j :: 0 <= i < j < |rs| ==> rs[i].until <= rs[j].until
  }

  function InsertByUntil(r: Record, rs: seq<Record>): (out: seq<Record>)
    requires r.Summary? && SortedByUntil(rs)
    ensures forall x <- out :: x == r || x in rs
    ensures SortedByUntil(out)
    ensures multiset(out) == multiset(rs) + multiset{r}
  {
    var n := |rs|;
    if n == 0 then [r]
    else if rs[n - 1].until <= r.until then rs + [r]
    else
      assert rs == rs[..n - 1] + [rs[n - 1]];
      var front := InsertByUntil(r, rs[..n - 1]);
      assert forall x <- front :: x.until <= rs[n - 1].until;
      front + [rs[n - 1]]
  }

  /** Python's stable sort by `covers_until`. */
  function SortByUntil(rs: seq<Record>): (out: seq<Record>)
    requires forall r <- rs :: r.Summary?
    ensures SortedByUntil(out) && multiset(out) == multiset(rs)
  {
    if rs == [] then []
    else
      assert rs == rs[..|rs| - 1] + [rs[|rs| - 1]];
      InsertByUntil(rs[|rs| - 1], SortByUntil(rs[..|rs| - 1]))
  }

  function Live(log: seq<Record>, peer: string): (live: seq<Record>)
    ensures forall r <- live :: SummaryFor(r, peer)
  {
    Survivors(Summaries(log, peer), |Summaries(log, peer)|)
  }

  /** The live summaries of the thread with `peer`, oldest first. */
  function Chain(log: seq<Record>, peer: string): (chain: seq<Record>)
    ensures SortedByUntil(chain) && multiset(chain) == multiset(Live(log, peer))
  {
    SortByUntil(Live(log, peer))
  }

  /** Where the verbatim tail starts: the end of the newest live summary. */
  function Seam(chain: seq<Record>): real
    requires SortedByUntil(chain)
  {
    if chain == [] then 0.0 else chain[|chain| - 1].until
  }

  /** The post-seam thread, coalesced, without the summary head. */
  function RawConversation(log: seq<Record>, peer: string): seq<Turn> {
    Coalesce(Between(Entries(log, peer), Seam(Chain(log, peer)), None))
  }

  function Texts(chain: seq<Record>): seq<string>
    requires forall r <- chain :: r.Summary?
  {
    if chain == [] then []
    else Texts(chain[..|chain| - 1]) + if chain[|chain| - 1].text != "" then [chain[|chain| - 1].text] else []
  }

  /** The durable block of the newest record that has one. */
  function NewestDurable(chain: seq<Record>): string
    requires forall r <- chain :: r.Summary?
  {
    if chain == [] then ""
    else if chain[|chain| - 1].durable != "" then chain[|chain| - 1].durable
    else NewestDurable(chain[..|chain| - 1])
  }

  function Join(parts: seq<string>): string {
    if parts == [] then "" else if |parts| == 1 then parts[0]
    else Join(parts[..|parts| - 1]) + "\n\n" + parts[|parts| - 1]
  }

  function SummariesBlock(chain: seq<Record>): string
    requires forall r <- chain :: r.Summary?
  {
    var durable := NewestDurable(chain);
    Join(Texts(chain) + if durable != "" then [durable] else [])
  }

  /** Lead the thread with the summary block as (part of) a user turn. */
  function WithHead(turns: seq<Turn>, chain: seq<Record>): seq<Turn>
    requires SortedByUntil(chain)
  {
    var block := SummariesBlock(chain);
    if chain == [] || block == "" then turns
    else if turns != [] && turns[0].role == User then
      [Turn(User, block + "\n\n" + turns[0].text, Seam(chain))] + turns[1..]
    else
      [Turn(User, block, Seam(chain))] + turns
  }

  function Conversation(log: seq<Record>, peer: string): seq<Turn> {
    WithHead(RawConversation(log, peer), Chain(log, peer))
  }

  // ------------------------------------------------------------- invariants

  /** Time stamps are positive and strictly increasing in append order. */
  ghost predicate Ticking(log: seq<Record>) {
    (forall i :: 0 <= i < |log| ==> 0.0 < log[i].ts) &&
    forall i, j :: 0 <= i < j < |log| ==> log[i].ts < log[j].ts
  }

  /** No time stamp is negative. */
  ghost predicate Stamped(log: seq<Record>) {
    forall r <- log :: 0.0 <= r.ts
  }

  /** The ranges are non-empty and tile [0, seam) in order, with no gap and no overlap. */
  ghost predicate Tiles(chain: seq<Record>) {
    (forall r <- chain :: r.Summary?) &&
    (chain != [] ==> chain[0].from == 0.0) &&
    (forall i :: 0 <= i < |chain| ==> chain[i].from < chain[i].until) &&
    forall i :: 0 <= i < |chain| - 1 ==> chain[i].until == chain[i + 1].from
  }

  ghost predicate Ordered(es: seq<Turn>) {
    forall i, j :: 0 <= i < j < |es| ==> es[i].ts < es[j].ts
  }

  ghost predicate AtOrAfter(es: seq<Turn>, lo: real) {
    forall e <- es :: lo <= e.ts
  }

  ghost predicate Before(es: seq<Turn>, hi: real) {
    forall e <- es :: e.ts < hi
  }

  ghost predicate NoTools(es: seq<Turn>) {
    forall e <- es :: e.role != Tool
  }

  // ------------------------------------------------------------------ proofs

  lemma {:induction false} EntriesAppend(log: seq<Record>, r: Record, peer: string)
    ensures Entries(log + [r], peer) ==
            Entries(log, peer) +
            (var t := TurnOf(r, LastSender(log), peer); if t.Some? then [t.value] else [])
  {
    assert (log + [r])[..|log|] == log;
  }

  lemma SummariesAppend(log: seq<Record>, r: Record, peer: string)
    ensures Summaries(log + [r], peer) == Summaries(log, peer) + if SummaryFor(r, peer) then [r] else []
  {
    assert (log + [r])[..|log|] == log;
  }

  /** The clock reads `t` after everything logged so far. */
  ghost predicate Later(log: seq<Record>, t: real) {
    0.0 < t && forall r <- log :: r.ts < t
  }

  /** Entries come from rows: in order, after time 0, before any later clock. */
  lemma {:induction false} EntriesTicking(log: seq<Record>, peer: string, now: real)
    requires Ticking(log) && Later(log, now)
    ensures AtOrAfter(Entries(log, peer), 0.0) && Before(Entries(log, peer), now)
    ensures NoTools(Entries(log, peer)) && Ordered(Entries(log, peer))
  {
    if log != [] {
      var before, r := log[..|log| - 1], log[|log| - 1];
      assert forall x <- before :: x in log;
      EntriesTicking(before, peer, r.ts);
      var es, t := Entries(before, peer), TurnOf(r, LastSender(before), peer);
      assert AtOrAfter(es, 0.0) && Before(es, now) && NoTools(es);
      if t.Some? {
        assert Entries(log, peer) == es + [t.value];
      }
    }
  }

  lemma {:induction false} CoalesceAlternates(es: seq<Turn>)
    ensures Alternates(Coalesce(es))
    ensures es != [] ==> Coalesce(es) != []
    ensures NoTools(es) ==> NoTools(Coalesce(es))
  {
    if es != [] {
      var init := es[..|es| - 1];
      CoalesceAlternates(init);
      PushAlternates(Coalesce(init), es[|es| - 1]);
      assert forall e <- init :: e in es;
    }
  }

  lemma PushAlternates(turns: seq<Turn>, e: Turn)
    requires Alternates(turns)
    ensures Alternates(Push(turns, e)) && Push(turns, e) != []
    ensures NoTools(turns) && e.role != Tool ==> NoTools(Push(turns, e))
  {
  }

  /** Pushing touches only the last turn, so it commutes with cutting before it. */
  lemma PushSuffix(turns: seq<Turn>, k: nat, e: Turn)
    requires k < |turns|
    ensures Push(turns[k..], e) == Push(turns, e)[k..]
    ensures Push(turns, e)[..k] == turns[..k] && Push(turns, e)[k].ts == turns[k].ts
  {
  }

  lemma CoalescePush(es: seq<Turn>, e: Turn)
    ensures Coalesce(es + [e]) == Push(Coalesce(es), e)
  {
    assert (es + [e])[..|es|] == es;
  }

  /** Entries `a` then `b` make the coalesced turns before `k` and those from `k` on. */
  ghost predicate CutsAt(es: seq<Turn>, k: nat, a: seq<Turn>, b: seq<Turn>)
    requires k < |Coalesce(es)|
  {
    es == a + b && b != [] && b[0].ts == Coalesce(es)[k].ts &&
    Coalesce(a) == Coalesce(es)[..k] && Coalesce(b) == Coalesce(es)[k..]
  }

  /** A turn boundary of the coalesced thread is an entry boundary, at the same time stamp. */
  lemma {:induction false} CoalesceCut(es: seq<Turn>, k: nat) returns (a: seq<Turn>, b: seq<Turn>)
    requires k < |Coalesce(es)|
    ensures CutsAt(es, k, a, b)
  {
    var init, e := es[..|es| - 1], es[|es| - 1];
    assert es == init + [e];
    if k < |Coalesce(init)| {
      a, b := CoalesceCut(init, k);
      CutGrows(init, e, k, a, b);
      b := b + [e];
    } else {
      a, b := init, [e];
      CutAtLast(init, e, k);
    }
  }

  lemma CutAtLast(init: seq<Turn>, e: Turn, k: nat)
    requires |Coalesce(init)| <= k < |Coalesce(init + [e])|
    ensures CutsAt(init + [e], k, init, [e])
  {
    CoalescePush(init, e);
    CoalescePush([], e);
    assert [] + [e] == [e];
  }

  lemma CutGrows(init: seq<Turn>, e: Turn, k: nat, a: seq<Turn>, b: seq<Turn>)
    requires k < |Coalesce(init)| && CutsAt(init, k, a, b)
    ensures k < |Coalesce(init + [e])| && CutsAt(init + [e], k, a, b + [e])
  {
    CoalescePush(init, e);
    CoalescePush(b, e);
    CutPushed(Coalesce(init), k, Coalesce(b), e);
    AppendLast(a, b, e);
  }

  lemma AppendLast(a: seq<Turn>, b: seq<Turn>, e: Turn)
    ensures (a + b) + [e] == a + (b + [e])
    ensures b != [] ==> (b + [e])[0] == b[0]
  {
  }

  lemma CutPushed(turns: seq<Turn>, k: nat, rest: seq<Turn>, e: Turn)
    requires k < |turns| && rest == turns[k..]
    ensures k < |Push(turns, e)| && Push(rest, e) == Push(turns, e)[k..]
    ensures Push(turns, e)[..k] == turns[..k] && Push(turns, e)[k].ts == turns[k].ts
  {
    PushSuffix(turns, k, e);
  }

  /** Cutting ordered entries at the time stamp of the first of `b`. */
  lemma BetweenSplit(a: seq<Turn>, b: seq<Turn>, lo: real)
    requires b != [] && Before(a, b[0].ts) && AtOrAfter(b, b[0].ts) && lo <= b[0].ts
    ensures Between(a + b, b[0].ts, None) == b
    ensures Between(a + b, lo, Some(b[0].ts)) == Between(a, lo, None)
  {
    var cut := b[0].ts;
    BetweenConcat(a, b, cut, None);
    BetweenConcat(a, b, lo, Some(cut));
    BetweenBelow(a, cut, cut);
    BetweenBelow(a, cut, lo);
    BetweenAll(b, cut);
    BetweenLate(b, lo, cut);
  }

  lemma {:induction false} BetweenConcat(a: seq<Turn>, b: seq<Turn>, lo: real, hi: Option<real>)
    ensures Between(a + b, lo, hi) == Between(a, lo, hi) + Between(b, lo, hi)
  {
    if b == [] {
      assert a + b == a;
    } else {
      assert (a + b)[..|a + b| - 1] == a + b[..|b| - 1];
      BetweenConcat(a, b[..|b| - 1], lo, hi);
    }
  }

  lemma {:induction false} BetweenAll(es: seq<Turn>, lo: real)
    requires AtOrAfter(es, lo)
    ensures Between(es, lo, None) == es
  {
    if es != [] {
      assert forall e <- es[..|es| - 1] :: e in es;
      BetweenAll(es[..|es| - 1], lo);
    }
  }

  lemma {:induction false} BetweenLate(es: seq<Turn>, lo: real, hi: real)
    requires AtOrAfter(es, hi)
    ensures Between(es, lo, Some(hi)) == []
  {
    if es != [] {
      assert forall e <- es[..|es| - 1] :: e in es;
      BetweenLate(es[..|es| - 1], lo, hi);
    }
  }

  /** When every entry is before `hi`: nothing from `hi` on, and `hi` cuts nothing off. */
  lemma {:induction false} BetweenBelow(es: seq<Turn>, hi: real, lo: real)
    requires Before(es, hi)
    ensures Between(es, hi, None) == []
    ensures Between(es, lo, Some(hi)) == Between(es, lo, None)
  {
    if es != [] {
      assert forall e <- es[..|es| - 1] :: e in es;
      BetweenBelow(es[..|es| - 1], hi, lo);
    }
  }

  /** A later cut of an earlier cut is the later cut. */
  lemma {:induction false} BetweenOfBetween(es: seq<Turn>, lo: real, lo2: real, hi: Option<real>)
    requires lo <= lo2
    ensures Between(Between(es, lo, None), lo2, hi) == Between(es, lo2, hi)
  {
    if es != [] {
      var init, e := es[..|es| - 1], es[|es| - 1];
      BetweenOfBetween(init, lo, lo2, hi);
      if lo <= e.ts {
        assert (Between(init, lo, None) + [e])[..|Between(init, lo, None)|] == Between(init, lo, None);
      } else {
        assert Between(init, lo, None) + [] == Between(init, lo, None);
      }
    }
  }

  lemma {:induction false} BetweenSubset(es: seq<Turn>, lo: real, hi: Option<real>)
    ensures forall e <- Between(es, lo, hi) :: e in es && lo <= e.ts && (hi.Some? ==> e.ts < hi.value)
    ensures Ordered(es) ==> Ordered(Between(es, lo, hi))
    ensures forall e <- es :: lo <= e.ts && (hi.Some? ==> e.ts < hi.value) ==> e in Between(es, lo, hi)
  {
    if es != [] {
      BetweenSubset(es[..|es| - 1], lo, hi);
    }
  }

  /** Tiles are ordered: an earlier one ends where or before a later one starts. */
  lemma {:induction false} TilesOrdered(chain: seq<Record>, i: nat, j: nat)
    requires Tiles(chain) && i < j < |chain|
    ensures chain[i].until <= chain[j].from
    ensures 0.0 <= chain[i].from
    decreases j - i, i
  {
    if i + 1 < j { TilesOrdered(chain, i, j - 1); }
    if i > 0 { TilesOrdered(chain, i - 1, i); }
  }

  /** How many summaries of the chain stand in for time `ts`. */
  function CoverCount(chain: seq<Record>, ts: real): nat
    requires forall r <- chain :: r.Summary?
  {
    if chain == [] then 0
    else
      CoverCount(chain[..|chain| - 1], ts) +
      if chain[|chain| - 1].from <= ts < chain[|chain| - 1].until then 1 else 0
  }

  /** Nothing twice, nothing never: below the seam exactly one summary, above it none. */
  lemma {:induction false} TilesCoverOnce(chain: seq<Record>, ts: real)
    requires Tiles(chain) && SortedByUntil(chain) && 0.0 <= ts
    ensures CoverCount(chain, ts) == if ts < Seam(chain) then 1 else 0
  {
    var n := |chain|;
    if n > 0 {
      var init := chain[..n - 1];
      TilesCoverOnce(init, ts);
      if n > 1 {
        assert init[n - 2].until == chain[n - 1].from;
      }
    }
  }

  function Drop(rs: seq<Record>, big: Record): seq<Record> {
    if rs == [] then []
    else Drop(rs[..|rs| - 1], big) + if Contains(big, rs[|rs| - 1]) then [] else [rs[|rs| - 1]]
  }

  /** A new summary drops from the survivors exactly what its range contains. */
  lemma {:induction false} SurvivorsAppend(rs: seq<Record>, s: Record, i: nat)
    requires i <= |rs|
    ensures Survivors(rs + [s], i) == Drop(Survivors(rs, i), s)
  {
    if i > 0 {
      SurvivorsAppend(rs, s, i - 1);
      SupersededAppend(rs, s, i - 1);
      var live := Survivors(rs, i - 1);
      if !Superseded(rs, i - 1) {
        assert (live + [rs[i - 1]])[..|live|] == live;
      } else {
        assert live + [] == live;
      }
    }
  }

  lemma SupersededAppend(rs: seq<Record>, s: Record, k: nat)
    requires k < |rs|
    ensures (rs + [s])[k] == rs[k]
    ensures Superseded(rs + [s], k) <==> Superseded(rs, k) || Contains(s, rs[k])
  {
    var all := rs + [s];
    if Superseded(rs, k) {
      var j :| k < j < |rs| && Contains(rs[j], rs[k]);
      assert Contains(all[j], all[k]);
    }
    if Contains(s, rs[k]) { assert Contains(all[|rs|], all[k]); }
  }

  lemma LiveSummary(log: seq<Record>, s: Record, peer: string)
    requires SummaryFor(s, peer)
    ensures Live(log + [s], peer) == Drop(Live(log, peer), s) + [s]
  {
    var rs := Summaries(log, peer);
    SummariesAppend(log, s, peer);
    NewestSurvives(rs, s);
  }

  lemma LiveOther(log: seq<Record>, s: Record, peer: string)
    requires !SummaryFor(s, peer)
    ensures Live(log + [s], peer) == Live(log, peer)
  {
    SummariesAppend(log, s, peer);
    assert Summaries(log, peer) + [] == Summaries(log, peer);
  }

  lemma NewestSurvives(rs: seq<Record>, s: Record)
    ensures Survivors(rs + [s], |rs| + 1) == Drop(Survivors(rs, |rs|), s) + [s]
  {
    SurvivorsAppend(rs, s, |rs|);
    assert !Superseded(rs + [s], |rs|);
    assert (rs + [s])[|rs|] == s;
  }

  lemma {:induction false} DropMultiset(rs: seq<Record>, big: Record, r: Record)
    ensures multiset(Drop(rs, big))[r] == if Contains(big, r) then 0 else multiset(rs)[r]
  {
    if rs != [] {
      assert rs == rs[..|rs| - 1] + [rs[|rs| - 1]];
      DropMultiset(rs[..|rs| - 1], big, r);
    }
  }

  lemma {:induction false} DropConcat(a: seq<Record>, b: seq<Record>, big: Record)
    ensures Drop(a + b, big) == Drop(a, big) + Drop(b, big)
  {
    if b == [] {
      assert a + b == a;
    } else {
      assert (a + b)[..|a + b| - 1] == a + b[..|b| - 1];
      DropConcat(a, b[..|b| - 1], big);
    }
  }

  lemma {:induction false} DropAll(rs: seq<Record>, big: Record)
    requires forall i :: 0 <= i < |rs| ==> Contains(big, rs[i])
    ensures Drop(rs, big) == []
  {
    if rs != [] { DropAll(rs[..|rs| - 1], big); }
  }

  lemma {:induction false} DropNone(rs: seq<Record>, big: Record)
    requires forall i :: 0 <= i < |rs| ==> !Contains(big, rs[i])
    ensures Drop(rs, big) == rs
  {
    if rs != [] { DropNone(rs[..|rs| - 1], big); }
  }

  /** `Drop` cuts out exactly the rows `i..j`, when those and no others are contained. */
  lemma DropMiddle(chain: seq<Record>, i: nat, j: nat, big: Record)
    requires i <= j <= |chain|
    requires forall k :: 0 <= k < |chain| ==> (Contains(big, chain[k]) <==> i <= k < j)
    ensures Drop(chain, big) == chain[..i] + chain[j..]
  {
    assert chain == chain[..i] + chain[i..j] + chain[j..];
    DropConcat(chain[..i] + chain[i..j], chain[j..], big);
    DropConcat(chain[..i], chain[i..j], big);
    DropNone(chain[..i], big);
    DropAll(chain[i..j], big);
    DropNone(chain[j..], big);
    assert chain[..i] + [] == chain[..i];
  }

  ghost predicate StrictlySorted(rs: seq<Record>) {
    (forall r <- rs :: r.Summary?) &&
    forall i, j :: 0 <= i < j < |rs| ==> rs[i].until < rs[j].until
  }

  lemma RestMultiset(rs: seq<Record>)
    requires rs != []
    ensures multiset(rs[1..]) == multiset(rs) - multiset{rs[0]}
  {
    assert rs == [rs[0]] + rs[1..];
  }

  /** A strictly sorted sequence is the only sorted arrangement of its elements. */
  lemma {:induction false} SortUnique(a: seq<Record>, b: seq<Record>)
    requires SortedByUntil(a) && StrictlySorted(b) && multiset(a) == multiset(b)
    ensures a == b
  {
    assert |a| == |multiset(a)| == |multiset(b)| == |b|;
    if a != [] {
      assert a[0] == b[0] by {
        assert a[0] in multiset(b) && b[0] in multiset(a);
        var i :| 0 <= i < |b| && b[i] == a[0];
        var j :| 0 <= j < |a| && a[j] == b[0];
        if i > 0 { assert false; }
      }
      RestMultiset(a);
      RestMultiset(b);
      SortUnique(a[1..], b[1..]);
    }
  }

  lemma TilesStrict(chain: seq<Record>)
    requires Tiles(chain)
    ensures StrictlySorted(chain)
  {
    forall i, j | 0 <= i < j < |chain| ensures chain[i].until < chain[j].until {
      TilesOrdered(chain, i, j);
    }
  }

  /** Where tile `i` starts, or would start. */
  function Start(chain: seq<Record>, i: nat): real
    requires i <= |chain| && forall r <- chain :: r.Summary?
  {
    if i == 0 then 0.0 else chain[i - 1].until
  }

  /** A range that starts with tile `i` and ends with tile `j - 1`, or past the last tile. */
  ghost predicate Spans(chain: seq<Record>, s: Record, i: nat, j: nat) {
    && i <= j <= |chain| && (forall r <- chain :: r.Summary?)
    && s.Summary? && s.from < s.until && s.from == Start(chain, i)
    && if j < |chain| then s.until == chain[j].from else Start(chain, j) <= s.until
  }

  lemma SpansContains(chain: seq<Record>, s: Record, i: nat, j: nat, k: nat)
    requires Tiles(chain) && Spans(chain, s, i, j) && k < |chain|
    ensures Contains(s, chain[k]) <==> i <= k < j
  {
    if k < i - 1 { TilesOrdered(chain, k, i - 1); }
    if i < k { TilesOrdered(chain, i, k); }
    if k < j - 1 { TilesOrdered(chain, k, j - 1); }
    if j < k { TilesOrdered(chain, j, k); }
  }

  lemma SpansTiles(chain: seq<Record>, s: Record, i: nat, j: nat)
    requires Tiles(chain) && Spans(chain, s, i, j)
    ensures Tiles(chain[..i] + [s] + chain[j..])
  {
    var next := chain[..i] + [s] + chain[j..];
    forall k | 0 <= k < |next| - 1 ensures next[k].until == next[k + 1].from {
      if k > i { assert next[k] == chain[j + k - i - 1] && next[k + 1] == chain[j + k - i]; }
    }
    forall k | 0 <= k < |next| ensures next[k].from < next[k].until {
      if k > i { assert next[k] == chain[j + k - i - 1]; }
    }
  }

  /** Appending a summary that spans the tiles `i..j` puts it in their place. */
  lemma {:induction false} ChainInsert(log: seq<Record>, s: Record, peer: string, i: nat, j: nat)
    requires SummaryFor(s, peer) && Tiles(Chain(log, peer)) && Spans(Chain(log, peer), s, i, j)
    ensures Chain(log + [s], peer) == Chain(log, peer)[..i] + [s] + Chain(log, peer)[j..]
    ensures Tiles(Chain(log + [s], peer))
  {
    var chain := Chain(log, peer);
    forall k | 0 <= k < |chain| ensures Contains(s, chain[k]) <==> i <= k < j {
      SpansContains(chain, s, i, j, k);
    }
    DropMiddle(chain, i, j, s);
    SpansTiles(chain, s, i, j);
    InsertIs(log, s, peer, chain[..i], chain[j..]);
  }

  lemma InsertIs(log: seq<Record>, s: Record, peer: string, before: seq<Record>, after: seq<Record>)
    requires SummaryFor(s, peer) && Drop(Chain(log, peer), s) == before + after && Tiles(before + [s] + after)
    ensures Chain(log + [s], peer) == before + [s] + after
  {
    ChainMembers(log, s, peer);
    TilesStrict(before + [s] + after);
    SortUnique(Chain(log + [s], peer), before + [s] + after);
  }

  /** Whatever its range, a new summary joins the live ones that it does not contain. */
  lemma ChainMembers(log: seq<Record>, s: Record, peer: string)
    requires SummaryFor(s, peer)
    ensures multiset(Chain(log + [s], peer)) == multiset(Drop(Chain(log, peer), s)) + multiset{s}
  {
    LiveSummary(log, s, peer);
    DropSame(Live(log, peer), Chain(log, peer), s);
  }

  lemma DropSame(a: seq<Record>, b: seq<Record>, big: Record)
    requires multiset(a) == multiset(b)
    ensures multiset(Drop(a, big)) == multiset(Drop(b, big))
  {
    forall r ensures multiset(Drop(a, big))[r] == multiset(Drop(b, big))[r] {
      DropMultiset(a, big, r);
      DropMultiset(b, big, r);
    }
  }

}
