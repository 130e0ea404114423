/**
 The in-place pass that shrinks the in-flight tool loop: replayed chat first,
 then old observations, then a bounded part of the newest ones.
 */
module TrimLoop {
  import opened Prelude

  const TOOL_RESULT_CHAR_LIMIT := 12_000
  const FRESH_LIMIT := 1024
  const OMITTED := "(earlier tool result omitted to stay in context)"
  const HISTORY_OMITTED :=
    "(earlier conversation omitted to make room for current tool results; " +
    "use search_history for original messages and decisions, or recall for facts)"
  const CAP_MARKER := "\n…(truncated)"
  const FRESH_MARKER := "\n(observation truncated to fit current context)"

  /** The value of one message; `calls` is the JSON of its tool calls, "" for none. */
  datatype MsgView = MsgView(role: string, content: string, name: string, callId: string, calls: string,
                       images: seq<nat>, signed: bool, replayed: bool)
  {
    predicate Decision() { name == "confirm" || name == "ask_user_choice" }

    /** A tool result that may be shortened. */
    predicate Observation() { role == "tool" && !Decision() }

    /** Replayed chat without any protocol field. */
    predicate PlainReplay() { replayed && calls == "" && callId == "" && !signed }
  }

  function ImageTokens(images: seq<nat>): nat {
    if images == [] then 0 else Max(1, images[0] / 750) + ImageTokens(images[1..])
  }

  function Cost(m: MsgView): nat {
    EstimateTokens(m.content) + ImageTokens(m.images) + if m.calls != "" then EstimateTokens(m.calls) else 0
  }

  function Total(ms: seq<MsgView>): nat {
    if ms == [] then 0 else Cost(ms[0]) + Total(ms[1..])
  }

  function CapToolResult(text: string): string {
    if |text| <= TOOL_RESULT_CHAR_LIMIT then text else text[..TOOL_RESULT_CHAR_LIMIT] + CAP_MARKER
  }

  function Capped(m: MsgView): MsgView {
    if m.role == "tool" && |m.content| > TOOL_RESULT_CHAR_LIMIT then m.(content := CapToolResult(m.content)) else m
  }

  function CapAll(ms: seq<MsgView>): (out: seq<MsgView>)
    ensures |out| == |ms| && forall i :: 0 <= i < |ms| ==> out[i] == Capped(ms[i])
  {
    seq(|ms|, i requires 0 <= i < |ms| => Capped(ms[i]))
  }

  /** The last message with tool calls; else the last tool result; else the end. */
  function LatestBatch(ms: seq<MsgView>): (k: nat)
    ensures k <= |ms|
  {
    if LastWith(ms, true) >= 0 then LastWith(ms, true)
    else if LastWith(ms, false) >= 0 then LastWith(ms, false)
    else |ms|
  }

  function LastWith(ms: seq<MsgView>, calls: bool): (k: int)
    ensures -1 <= k < |ms|
  {
    if ms == [] then -1
    else if (if calls then ms[|ms| - 1].calls != "" else ms[|ms| - 1].role == "tool") then |ms| - 1
    else LastWith(ms[..|ms| - 1], calls)
  }

  datatype Phase = Replay | Old | Fresh

  /** What a phase does to one message while the total `total` is over `budget`. */
  function Rewrite(phase: Phase, m: MsgView, budget: int, total: int): MsgView {
    match phase
    case Replay =>
      if m.PlainReplay() && Cost(m) > EstimateTokens(HISTORY_OMITTED)
      then m.(content := HISTORY_OMITTED, images := []) else m
    case Old =>
      if m.Observation() then m.(content := OMITTED) else m
    case Fresh =>
      if m.Observation() && |m.content| > FRESH_LIMIT && total > budget
      then m.(content := m.content[..Max(512, |m.content| - (total - budget + 30) * 4)] + FRESH_MARKER) else m
  }

  /** Rewrite messages i..hi in order, for as long as the total is over budget. */
  function Sweep(phase: Phase, ms: seq<MsgView>, i: nat, hi: nat, budget: int): (out: seq<MsgView>)
    requires hi <= |ms|
    ensures |out| == |ms|
    decreases hi - i
  {
    if Total(ms) <= budget || i >= hi then ms
    else Sweep(phase, ms[i := Rewrite(phase, ms[i], budget, Total(ms))], i + 1, hi, budget)
  }

  function Trim(ms: seq<MsgView>, budget: int): (out: seq<MsgView>)
    ensures |out| == |ms|
  {
    var capped := CapAll(ms);
    var chat := Sweep(Replay, capped, 0, |ms|, budget);
    var aged := Sweep(Old, chat, 0, LatestBatch(chat), budget);
    Sweep(Fresh, aged, LatestBatch(chat), |ms|, budget)
  }

  lemma {:induction false} TotalUpdate(ms: seq<MsgView>, i: nat, m: MsgView)
    requires i < |ms|
    ensures Total(ms[i := m]) == Total(ms) - Cost(ms[i]) + Cost(m)
  {
    if i > 0 {
      TotalUpdate(ms[1..], i - 1, m);
      assert ms[i := m][1..] == ms[1..][i - 1 := m];
    } else {
      assert ms[i := m][1..] == ms[1..];
    }
  }

  // ------------------------------------------------------- the heap version

  class Message {
    var role: string
    var content: string
    var name: string
    var toolCallId: string
    var calls: string
    var images: seq<nat>
    var signed: bool

    ghost function Snapshot(replayed: set<Message>): MsgView
      reads this
    {
      MsgView(role, content, name, toolCallId, calls, images, signed, this in replayed)
    }

    /** `estimate_message_tokens`. */
    function Tokens(): nat
      reads this
    {
      EstimateTokens(content) + ImageTokens(images) + if calls != "" then EstimateTokens(calls) else 0
    }
  }

  ghost function Views(ms: seq<Message>, replayed: set<Message>): (v: seq<MsgView>)
    reads ms
    ensures |v| == |ms| && forall i :: 0 <= i < |ms| ==> v[i] == ms[i].Snapshot(replayed)
  {
    seq(|ms|, i requires 0 <= i < |ms| reads ms => ms[i].Snapshot(replayed))
  }

  ghost predicate Distinct(ms: seq<Message>) {
    forall i, j :: 0 <= i < j < |ms| ==> ms[i] != ms[j]
  }

  method SumTokens(ms: seq<Message>, ghost replayed: set<Message>) returns (total: nat)
    ensures total == Total(Views(ms, replayed))
  {
    total := 0;
    var i := |ms|;
    while i > 0
      invariant 0 <= i <= |ms|
      invariant total == Total(Views(ms, replayed)[i..])
    {
      i := i - 1;
      assert Views(ms, replayed)[i..][1..] == Views(ms, replayed)[i + 1..];
      total := total + ms[i].Tokens();
    }
    assert Views(ms, replayed)[0..] == Views(ms, replayed);
  }

  method CapToolResults(ms: seq<Message>, ghost replayed: set<Message>)
    requires Distinct(ms)
    modifies ms
    ensures Views(ms, replayed) == CapAll(old(Views(ms, replayed)))
  {
    for k := 0 to |ms|
      invariant forall i :: 0 <= i < |ms| ==>
        ms[i].Snapshot(replayed) ==
        if i < k then Capped(old(ms[i].Snapshot(replayed))) else old(ms[i].Snapshot(replayed))
    {
      if ms[k].role == "tool" && |ms[k].content| > TOOL_RESULT_CHAR_LIMIT {
        ms[k].content := CapToolResult(ms[k].content);
      }
    }
  }

  /** One phase over messages lo..hi, keeping `total` in step instead of summing again. */
  method SweepInPlace(phase: Phase, ms: seq<Message>, lo: nat, hi: nat, budget: int, start: int,
                      replayed: set<Message>) returns (total: int)
    requires Distinct(ms) && hi <= |ms| && start == Total(Views(ms, replayed))
    modifies ms
    ensures Views(ms, replayed) == Sweep(phase, old(Views(ms, replayed)), lo, hi, budget)
    ensures total == Total(Views(ms, replayed))
  {
    total := start;
    var i := lo;
    ghost var goal := Sweep(phase, Views(ms, replayed), lo, hi, budget);
    while i < hi && total > budget
      invariant lo <= i
      invariant total == Total(Views(ms, replayed))
      invariant Sweep(phase, Views(ms, replayed), i, hi, budget) == goal
    {
      SweepUnfolds(phase, Views(ms, replayed), i, hi, budget);
      var spent := SweepStep(phase, ms, i, budget, total, replayed);
      total := total + spent;
      i := i + 1;
    }
  }

  lemma SweepUnfolds(phase: Phase, v: seq<MsgView>, i: nat, hi: nat, budget: int)
    requires i < hi <= |v| && Total(v) > budget
    ensures Sweep(phase, v, i, hi, budget)
      == Sweep(phase, v[i := Rewrite(phase, v[i], budget, Total(v))], i + 1, hi, budget)
  {
  }

  method SweepStep(phase: Phase, ms: seq<Message>, i: nat, budget: int, total: int, replayed: set<Message>)
    returns (delta: int)
    requires Distinct(ms) && i < |ms| && total > budget
    modifies ms
    ensures
      var before := old(Views(ms, replayed));
      Views(ms, replayed) == before[i := Rewrite(phase, before[i], budget, total)] &&
      Total(Views(ms, replayed)) == Total(before) + delta
  {
    ghost var before := Views(ms, replayed);
    assert forall j :: 0 <= j < |ms| && j != i ==> ms[j] != ms[i];
    delta := RewriteMessage(phase, ms[i], budget, total, replayed);
    ghost var after := before[i := Rewrite(phase, before[i], budget, total)];
    assert forall j :: 0 <= j < |ms| ==> ms[j].Snapshot(replayed) == after[j];
    assert Views(ms, replayed) == after;
    TotalUpdate(before, i, after[i]);
  }

  method RewriteMessage(phase: Phase, msg: Message, budget: int, total: int, replayed: set<Message>)
    returns (delta: int)
    requires total > budget
    modifies msg
    ensures msg.Snapshot(replayed) == Rewrite(phase, old(msg.Snapshot(replayed)), budget, total)
    ensures delta == Cost(msg.Snapshot(replayed)) - Cost(old(msg.Snapshot(replayed)))
  {
    var was := msg.Tokens();
    match phase {
    case Replay =>
      if msg !in replayed || msg.calls != "" || msg.toolCallId != "" || msg.signed {
        return 0;
      }
      if was <= EstimateTokens(HISTORY_OMITTED) {
        return 0;
      }
      msg.content := HISTORY_OMITTED;
      msg.images := [];
    case Old =>
      if msg.role != "tool" || msg.content == OMITTED || msg.name == "confirm" || msg.name == "ask_user_choice" {
        return 0;
      }
      msg.content := OMITTED;
    case Fresh =>
      if msg.role != "tool" || msg.name == "confirm" || msg.name == "ask_user_choice" || |msg.content| <= FRESH_LIMIT {
        return 0;
      }
      var keep := Max(512, |msg.content| - (total - budget + 30) * 4);
      msg.content := msg.content[..keep] + FRESH_MARKER;
    }
    delta := msg.Tokens() - was;
  }

  method FindLatestBatch(ms: seq<Message>, ghost replayed: set<Message>) returns (k: nat)
    ensures k == LatestBatch(Views(ms, replayed))
  {
    var i := |ms|;
    assert Views(ms, replayed)[..|ms|] == Views(ms, replayed);
    while i > 0
      invariant 0 <= i <= |ms|
      invariant LastWith(Views(ms, replayed), true) == LastWith(Views(ms, replayed)[..i], true)
    {
      assert Views(ms, replayed)[..i][..i - 1] == Views(ms, replayed)[..i - 1];
      if ms[i - 1].calls != "" {
        return i - 1;
      }
      i := i - 1;
    }
    i := |ms|;
    while i > 0
      invariant 0 <= i <= |ms|
      invariant LastWith(Views(ms, replayed), false) == LastWith(Views(ms, replayed)[..i], false)
    {
      assert Views(ms, replayed)[..i][..i - 1] == Views(ms, replayed)[..i - 1];
      if ms[i - 1].role == "tool" {
        return i - 1;
      }
      i := i - 1;
    }
    k := |ms|;
  }

  method TrimLoopMessages(ms: seq<Message>, budget: int, replayed: set<Message>)
    requires Distinct(ms)
    modifies ms
    ensures Views(ms, replayed) == Trim(old(Views(ms, replayed)), budget)
  {
    CapToolResults(ms, replayed);
    var total: int := SumTokens(ms, replayed);
    if total <= budget {
      return;
    }
    total := SweepInPlace(Replay, ms, 0, |ms|, budget, total, replayed);
    var latestBatch := FindLatestBatch(ms, replayed);
    total := SweepInPlace(Old, ms, 0, latestBatch, budget, total, replayed);
    total := SweepInPlace(Fresh, ms, latestBatch, |ms|, budget, total, replayed);
  }

  // ------------------------------------------------------------- what it keeps

  /** `m'` is what phase `phase` makes of `m` at some total over the budget. */
  ghost predicate Swept(phase: Phase, m: MsgView, m': MsgView, budget: int) {
    exists total :: total > budget && m' == Rewrite(phase, m, budget, total)
  }

  lemma FirstIsSwept(phase: Phase, ms: seq<MsgView>, i: nat, budget: int)
    requires i < |ms| && Total(ms) > budget
    ensures Swept(phase, ms[i], ms[i := Rewrite(phase, ms[i], budget, Total(ms))][i], budget)
  {
  }

  /** A sweep touches only its range; if it ends over budget it has rewritten all of its range. */
  lemma {:induction false} SweepPointwise(phase: Phase, ms: seq<MsgView>, i: nat, hi: nat, budget: int)
    requires hi <= |ms|
    ensures
      var out := Sweep(phase, ms, i, hi, budget);
      (forall k :: 0 <= k < |ms| && !(i <= k < hi) ==> out[k] == ms[k]) &&
      (forall k :: i <= k < hi ==> out[k] == ms[k] || Swept(phase, ms[k], out[k], budget)) &&
      (Total(out) > budget ==> Total(ms) > budget && forall k :: i <= k < hi ==> Swept(phase, ms[k], out[k], budget))
    decreases hi - i
  {
    if Total(ms) > budget && i < hi {
      var next := ms[i := Rewrite(phase, ms[i], budget, Total(ms))];
      SweepUnfolds(phase, ms, i, hi, budget);
      SweepPointwise(phase, next, i + 1, hi, budget);
      FirstIsSwept(phase, ms, i, budget);
    }
  }

  /** Only the text and the pictures may change. */
  ghost predicate SameShell(m: MsgView, m': MsgView) {
    m' == m.(content := m'.content, images := m'.images)
  }

  lemma {:induction false} LastWithSame(a: seq<MsgView>, b: seq<MsgView>, calls: bool)
    requires |a| == |b| && forall k :: 0 <= k < |a| ==> SameShell(a[k], b[k])
    ensures LastWith(a, calls) == LastWith(b, calls)
  {
    if a != [] { LastWithSame(a[..|a| - 1], b[..|b| - 1], calls); }
  }

  /** What the last phase leaves when it ran in full: short observations, and nothing short touched. */
  ghost predicate FreshSpent(m: MsgView, m': MsgView) {
    (m'.Observation() ==> |m'.content| <= FRESH_LIMIT) && (|m.content| <= FRESH_LIMIT ==> m' == m)
  }

  /** The stages of the pass on message `k`; a total still over budget means that every stage ran in full. */
  lemma TrimPointwise(ms: seq<MsgView>, budget: int, k: nat) returns (chat: MsgView, aged: MsgView)
    requires k < |ms|
    ensures
      var out, capped, latest := Trim(ms, budget), Capped(ms[k]), LatestBatch(ms);
      var over := Total(out) > budget;
      ((chat == capped && !over) || chat == Rewrite(Replay, capped, budget, 0)) &&
      (if k < latest then (aged == chat && !over) || aged == Rewrite(Old, chat, budget, 0) else aged == chat) &&
      (if k >= latest then (out[k] == aged && !over) || Swept(Fresh, aged, out[k], budget) else out[k] == aged) &&
      (over && k >= latest ==> FreshSpent(aged, out[k]))
  {
    var afterChat, afterOld := TrimStages(ms, budget);
    var latest := LatestBatch(ms);
    SweepPointwise(Replay, CapAll(ms), 0, |ms|, budget);
    SweepPointwise(Old, afterChat, 0, latest, budget);
    SweepPointwise(Fresh, afterOld, latest, |ms|, budget);
    if k >= latest && Total(Trim(ms, budget)) > budget {
      FreshSweepExhausts(afterOld, latest, |ms|, budget, k);
    }
    chat, aged := afterChat[k], afterOld[k];
  }

  lemma TrimStages(ms: seq<MsgView>, budget: int) returns (afterChat: seq<MsgView>, afterOld: seq<MsgView>)
    ensures afterChat == Sweep(Replay, CapAll(ms), 0, |ms|, budget)
    ensures afterOld == Sweep(Old, afterChat, 0, LatestBatch(ms), budget)
    ensures Trim(ms, budget) == Sweep(Fresh, afterOld, LatestBatch(ms), |ms|, budget)
  {
    afterChat := Sweep(Replay, CapAll(ms), 0, |ms|, budget);
    SweepPointwise(Replay, CapAll(ms), 0, |ms|, budget);
    assert forall j :: 0 <= j < |ms| ==> SameShell(ms[j], afterChat[j]);
    LastWithSame(ms, afterChat, true);
    LastWithSame(ms, afterChat, false);
    afterOld := Sweep(Old, afterChat, 0, LatestBatch(ms), budget);
  }

  /**
   Order, roles, names and pairing fields never change; current human and assistant
   messages never change at all; decisions only meet the hard cap.
   */
  lemma TrimKeeps(ms: seq<MsgView>, budget: int, k: nat)
    requires k < |ms|
    ensures
      var m, m' := ms[k], Trim(ms, budget)[k];
      SameShell(m, m') &&
      (m.role != "tool" && !m.PlainReplay() ==> m' == m) &&
      (m.Decision() && !m.PlainReplay() ==> m' == Capped(m)) &&
      (!m.PlainReplay() ==> m'.images == m.images)
  {
    var chat, aged := TrimPointwise(ms, budget, k);
  }

  /** Every kept piece of an observation is a prefix of the observation. */
  lemma TrimShortensByPrefix(ms: seq<MsgView>, budget: int, k: nat)
    requires k < |ms| && LatestBatch(ms) <= k && ms[k].Observation() && !ms[k].PlainReplay()
    ensures
      var text, text' := Capped(ms[k]).content, Trim(ms, budget)[k].content;
      text' == text ||
      (exists keep :: 512 <= keep <= |text| && text' == text[..keep] + FRESH_MARKER)
  {
    var chat, aged := TrimPointwise(ms, budget, k);
  }

  lemma MarkerSizes()
    ensures EstimateTokens(OMITTED) == 12 && EstimateTokens(HISTORY_OMITTED) == 36 && |FRESH_MARKER| == 47
    ensures |OMITTED| == 48 && |HISTORY_OMITTED| == 145
  {
  }

  // ---------------------------------------------------- where it ends: spent

  /** A cut that keeps more than 512 characters already brings the total under budget. */
  lemma FreshCutSuffices(m: MsgView, budget: int, total: int)
    requires m.Observation() && |m.content| > FRESH_LIMIT && total > budget
    ensures
      var m' := Rewrite(Fresh, m, budget, total);
      |m'.content| <= FRESH_LIMIT || total - Cost(m) + Cost(m') <= budget
  {
    MarkerSizes();
  }

  lemma {:induction false} FreshSweepExhausts(ms: seq<MsgView>, i: nat, hi: nat, budget: int, k: nat)
    requires hi <= |ms| && i <= k < hi && Total(Sweep(Fresh, ms, i, hi, budget)) > budget
    ensures FreshSpent(ms[k], Sweep(Fresh, ms, i, hi, budget)[k])
    decreases hi - i
  {
    SweepPointwise(Fresh, ms, i, hi, budget);
    var m' := Rewrite(Fresh, ms[i], budget, Total(ms));
    var next := ms[i := m'];
    SweepPointwise(Fresh, next, i + 1, hi, budget);
    TotalUpdate(ms, i, m');
    if k > i {
      FreshSweepExhausts(next, i + 1, hi, budget, k);
    } else if ms[i].Observation() && |ms[i].content| > FRESH_LIMIT {
      FreshCutSuffices(ms[i], budget, Total(ms));
    }
  }

  /** Message `k` of a finished pass has nothing left to give. */
  ghost predicate Spent(m: MsgView, k: nat, latest: nat) {
    (m.Observation() && k < latest ==> m.content == OMITTED) &&
    (m.Observation() && k >= latest ==> |m.content| <= FRESH_LIMIT) &&
    (m.PlainReplay() && !(m.Observation() && k < latest) ==> Cost(m) <= EstimateTokens(HISTORY_OMITTED))
  }

  /** The pass ends within budget, or with every message spent. */
  lemma TrimFitsOrIsSpent(ms: seq<MsgView>, budget: int, k: nat)
    requires k < |ms| && Total(Trim(ms, budget)) > budget
    ensures Spent(Trim(ms, budget)[k], k, LatestBatch(ms))
  {
    var chat, aged := TrimPointwise(ms, budget, k);
    StagesSpend(Capped(ms[k]), chat, aged, Trim(ms, budget)[k], k, LatestBatch(ms), budget);
  }

  lemma StagesSpend(capped: MsgView, chat: MsgView, aged: MsgView, out: MsgView, k: nat, latest: nat, budget: int)
    requires chat == Rewrite(Replay, capped, budget, 0)
    requires k < latest ==> aged == Rewrite(Old, chat, budget, 0) && out == aged
    requires k >= latest ==> aged == chat && Swept(Fresh, aged, out, budget) && FreshSpent(aged, out)
    ensures Spent(out, k, latest)
  {
    MarkerSizes();
  }

  // --------------------------------------------------------- running it again

  lemma {:induction false} SweepFixed(phase: Phase, ms: seq<MsgView>, i: nat, hi: nat, budget: int)
    requires hi <= |ms|
    requires Total(ms) > budget ==> forall k :: i <= k < hi ==> Rewrite(phase, ms[k], budget, Total(ms)) == ms[k]
    ensures Sweep(phase, ms, i, hi, budget) == ms
    decreases hi - i
  {
    if Total(ms) > budget && i < hi {
      assert ms[i := ms[i]] == ms;
      SweepFixed(phase, ms, i + 1, hi, budget);
    }
  }

  lemma CappedOnce(m: MsgView)
    ensures Capped(Capped(m)) == Capped(m) && (|Capped(m).content| <= TOOL_RESULT_CHAR_LIMIT + 13 || m.role != "tool")
  {
    assert |CAP_MARKER| == 13;
    if m.role == "tool" && |m.content| > TOOL_RESULT_CHAR_LIMIT {
      assert Capped(m).content[..TOOL_RESULT_CHAR_LIMIT] == m.content[..TOOL_RESULT_CHAR_LIMIT];
    }
  }

  lemma TrimmedIsCapped(ms: seq<MsgView>, budget: int)
    ensures CapAll(Trim(ms, budget)) == Trim(ms, budget)
  {
    forall k | 0 <= k < |ms| ensures Capped(Trim(ms, budget)[k]) == Trim(ms, budget)[k] {
      MarkerSizes();
      CappedOnce(ms[k]);
      var chat, aged := TrimPointwise(ms, budget, k);
    }
  }

  /** A replayed tool result with pictures, small itself, that the placeholder makes bigger than a chat placeholder. */
  predicate Regrows(ms: seq<MsgView>, k: nat)
    requires k < |ms|
  {
    var m := ms[k];
    m.PlainReplay() && m.Observation() && k < LatestBatch(ms) &&
    Cost(Capped(m)) <= EstimateTokens(HISTORY_OMITTED) < EstimateTokens(OMITTED) + ImageTokens(m.images)
  }

  /** What a second pass over a spent list would still replace: exactly the regrown messages. */
  lemma RegrownExactly(ms: seq<MsgView>, budget: int, k: nat)
    requires k < |ms| && Total(Trim(ms, budget)) > budget
    ensures
      var m' := Trim(ms, budget)[k];
      (m'.PlainReplay() && Cost(m') > EstimateTokens(HISTORY_OMITTED) <==> Regrows(ms, k)) &&
      (Regrows(ms, k) ==> m'.images != [])
  {
    MarkerSizes();
    TrimFitsOrIsSpent(ms, budget, k);
    var chat, aged := TrimPointwise(ms, budget, k);
  }

  /** A replay sweep that has something to replace empties somebody's pictures. */
  lemma {:induction false} ReplaySweepEmpties(ms: seq<MsgView>, i: nat, budget: int, k: nat) returns (j: nat)
    requires i <= k < |ms| && Total(ms) > budget
    requires ms[k].PlainReplay() && Cost(ms[k]) > EstimateTokens(HISTORY_OMITTED)
    requires forall x :: i <= x < |ms| && ms[x].PlainReplay() && Cost(ms[x]) > EstimateTokens(HISTORY_OMITTED) ==>
      ms[x].images != []
    ensures j < |ms| && ms[j].images != [] && Sweep(Replay, ms, i, |ms|, budget)[j].images == []
    decreases |ms| - i
  {
    var m' := Rewrite(Replay, ms[i], budget, Total(ms));
    if m' != ms[i] {
      SweepPointwise(Replay, ms[i := m'], i + 1, |ms|, budget);
      j := i;
    } else {
      assert ms[i := m'] == ms;
      j := ReplaySweepEmpties(ms, i + 1, budget, k);
    }
  }

  /** What can be checked before the first pass: with nothing to regrow a second pass changes nothing. */
  lemma TrimIdempotentWithoutRegrowth(ms: seq<MsgView>, budget: int)
    requires forall k :: 0 <= k < |ms| ==> !Regrows(ms, k)
    ensures Trim(Trim(ms, budget), budget) == Trim(ms, budget)
  {
    TrimIdempotentExactly(ms, budget);
  }

  /** Exactly when running the pass again changes nothing: it ended within budget, or nothing can
      regrow. The first half needs the final total, since a message that could regrow is left alone
      once the budget is met. */
  lemma TrimIdempotentExactly(ms: seq<MsgView>, budget: int)
    ensures
      Trim(Trim(ms, budget), budget) == Trim(ms, budget) <==>
      Total(Trim(ms, budget)) <= budget || forall k :: 0 <= k < |ms| ==> !Regrows(ms, k)
  {
    var out := Trim(ms, budget);
    TrimmedIsCapped(ms, budget);
    if Total(out) <= budget {
    } else {
      forall k | 0 <= k < |ms| ensures SameShell(ms[k], out[k]) { TrimKeeps(ms, budget, k); }
      LastWithSame(ms, out, true);
      LastWithSame(ms, out, false);
      if k :| 0 <= k < |ms| && Regrows(ms, k) {
        RegrownIsReplacedAgain(ms, budget, k);
      } else {
        SpentIsFixed(ms, budget);
      }
    }
  }

  lemma SpentIsFixed(ms: seq<MsgView>, budget: int)
    requires Total(Trim(ms, budget)) > budget && CapAll(Trim(ms, budget)) == Trim(ms, budget)
    requires LatestBatch(Trim(ms, budget)) == LatestBatch(ms)
    requires forall k :: 0 <= k < |ms| ==> !Regrows(ms, k)
    ensures Trim(Trim(ms, budget), budget) == Trim(ms, budget)
  {
    var out := Trim(ms, budget);
    forall k | 0 <= k < |ms|
      ensures Rewrite(Replay, out[k], budget, Total(out)) == out[k]
      ensures k < LatestBatch(ms) ==> Rewrite(Old, out[k], budget, Total(out)) == out[k]
      ensures k >= LatestBatch(ms) ==> Rewrite(Fresh, out[k], budget, Total(out)) == out[k]
    {
      TrimFitsOrIsSpent(ms, budget, k);
      RegrownExactly(ms, budget, k);
    }
    SweepFixed(Replay, out, 0, |ms|, budget);
    SweepFixed(Old, out, 0, LatestBatch(ms), budget);
    SweepFixed(Fresh, out, LatestBatch(ms), |ms|, budget);
  }

  lemma RegrownIsReplacedAgain(ms: seq<MsgView>, budget: int, k: nat)
    requires Total(Trim(ms, budget)) > budget && CapAll(Trim(ms, budget)) == Trim(ms, budget)
    requires k < |ms| && Regrows(ms, k)
    ensures Trim(Trim(ms, budget), budget) != Trim(ms, budget)
  {
    var out := Trim(ms, budget);
    forall x | 0 <= x < |ms|
      ensures out[x].PlainReplay() && Cost(out[x]) > EstimateTokens(HISTORY_OMITTED) <==> Regrows(ms, x)
      ensures Regrows(ms, x) ==> out[x].images != []
    {
      RegrownExactly(ms, budget, x);
    }
    var j := ReplaySweepEmpties(out, 0, budget, k);
    LaterPhasesKeepPictures(out, budget, j);
  }

  lemma LaterPhasesKeepPictures(ms: seq<MsgView>, budget: int, j: nat)
    requires j < |ms|
    ensures Trim(ms, budget)[j].images == Sweep(Replay, CapAll(ms), 0, |ms|, budget)[j].images
  {
    var chat := Sweep(Replay, CapAll(ms), 0, |ms|, budget);
    var aged := Sweep(Old, chat, 0, LatestBatch(chat), budget);
    SweepPointwise(Old, chat, 0, LatestBatch(chat), budget);
    SweepPointwise(Fresh, aged, LatestBatch(chat), |ms|, budget);
  }

  /** Replayed history is text only today; then the pass is idempotent outright. */
  lemma TrimIdempotentOnTextReplay(ms: seq<MsgView>, budget: int)
    requires forall m <- ms :: m.replayed ==> m.images == []
    ensures Trim(Trim(ms, budget), budget) == Trim(ms, budget)
  {
    MarkerSizes();
    forall k | 0 <= k < |ms| ensures !Regrows(ms, k) {
      assert ms[k] in ms;
    }
    TrimIdempotentWithoutRegrowth(ms, budget);
  }

  /** The exception is real: a replayed screenshot result ahead of one call, with no budget at all. */
  lemma TrimNotAlwaysIdempotent()
    ensures
      var ms := [MsgView("tool", "", "", "", "", [26_250], false, true),
                 MsgView("assistant", "", "", "", "[]", [], false, false)];
      Trim(Trim(ms, 0), 0) != Trim(ms, 0)
  {
    var ms := [MsgView("tool", "", "", "", "", [26_250], false, true),
               MsgView("assistant", "", "", "", "[]", [], false, false)];
    MarkerSizes();
    assert ImageTokens([26_250]) == 35 by { assert [26_250][1..] == []; }
    assert LastWith(ms, true) == 1;
    assert Regrows(ms, 0);
    TrimIdempotentExactly(ms, 0);
    assert Cost(Trim(ms, 0)[0]) >= 1;
  }
}
