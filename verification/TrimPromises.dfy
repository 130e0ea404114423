/** What the trimming pass promises of each message, in terms of the list it was given. */
module TrimPromises {
  import opened Prelude
  import opened TrimLoop

  // ------------------------------------------------- where the batch starts

  /** The last message with tool calls. */
  ghost predicate LastCall(ms: seq<MsgView>, b: nat) {
    b < |ms| && ms[b].calls != "" && forall k :: b < k < |ms| ==> ms[k].calls == ""
  }

  /** No message has tool calls, and this is the last tool result. */
  ghost predicate LastLooseResult(ms: seq<MsgView>, b: nat) {
    b < |ms| && ms[b].role == "tool" && (forall k :: b < k < |ms| ==> ms[k].role != "tool") &&
    forall k :: 0 <= k < |ms| ==> ms[k].calls == ""
  }

  /** The protected batch starts here. */
  ghost predicate BatchStarts(ms: seq<MsgView>, b: nat) {
    LastCall(ms, b) || LastLooseResult(ms, b)
  }

  lemma {:induction false} LastWithIs(ms: seq<MsgView>, calls: bool, b: nat)
    requires b < |ms| && (if calls then ms[b].calls != "" else ms[b].role == "tool")
    requires forall k :: b < k < |ms| ==> if calls then ms[k].calls == "" else ms[k].role != "tool"
    ensures LastWith(ms, calls) == b
  {
    if b < |ms| - 1 {
      var init := ms[..|ms| - 1];
      assert forall k :: 0 <= k < |init| ==> init[k] == ms[k];
      LastWithIs(init, calls, b);
    }
  }

  lemma {:induction false} NoneWithCalls(ms: seq<MsgView>)
    requires forall k :: 0 <= k < |ms| ==> ms[k].calls == ""
    ensures LastWith(ms, true) == -1
  {
    if ms != [] { NoneWithCalls(ms[..|ms| - 1]); }
  }

  lemma BatchIsLatest(ms: seq<MsgView>, b: nat)
    requires BatchStarts(ms, b)
    ensures LatestBatch(ms) == b
  {
    if LastCall(ms, b) {
      LastWithIs(ms, true, b);
    } else {
      NoneWithCalls(ms);
      LastWithIs(ms, false, b);
    }
  }

  // --------------------------------------------------- what becomes of whom

  /** The text itself, or its first 12,000 characters and a marker. */
  predicate CappedText(text: string, capped: string) {
    if |text| <= 12_000 then capped == text else capped == text[..12_000] + "\n…(truncated)"
  }

  /** The capped text, or a prefix of at least 512 characters of it and a marker. */
  ghost predicate KeepsItsStart(text: string, out: string) {
    exists capped :: CappedText(text, capped) &&
      (out == capped || exists keep ::
         512 <= keep <= |capped| && out == capped[..keep] + "\n(observation truncated to fit current context)")
  }

  /** A tool result that is no decision of the user. */
  predicate Shortens(m: MsgView) {
    m.role == "tool" && m.name != "confirm" && m.name != "ask_user_choice"
  }

  /** Replayed chat that carries nothing of the tool protocol. */
  predicate OldChat(m: MsgView) {
    m.replayed && m.calls == "" && m.callId == "" && !m.signed
  }

  /** From the latest batch on, every tool result keeps its start. */
  lemma FreshKeepsItsStart(ms: seq<MsgView>, budget: int, b: nat, k: nat)
    requires BatchStarts(ms, b) && b <= k < |ms| && Shortens(ms[k]) && !OldChat(ms[k])
    ensures KeepsItsStart(ms[k].content, Trim(ms, budget)[k].content)
  {
    BatchIsLatest(ms, b);
    TrimShortensByPrefix(ms, budget, k);
    assert CappedText(ms[k].content, Capped(ms[k]).content);
  }

  /** Before it, every one is spent before the pass gives up, and so is every fresh one. */
  lemma OverBudgetMeansSpent(ms: seq<MsgView>, budget: int, b: nat, k: nat)
    requires BatchStarts(ms, b) && k < |ms| && Shortens(ms[k]) && Total(Trim(ms, budget)) > budget
    ensures
      var text := Trim(ms, budget)[k].content;
      if k < b then text == "(earlier tool result omitted to stay in context)" else |text| <= 1024
  {
    BatchIsLatest(ms, b);
    TrimKeeps(ms, budget, k);
    TrimFitsOrIsSpent(ms, budget, k);
  }

  /** What is never touched: current human and assistant messages; and of decisions all but the cap. */
  lemma CurrentIsUntouched(ms: seq<MsgView>, budget: int, k: nat)
    requires k < |ms| && !OldChat(ms[k])
    ensures ms[k].role != "tool" ==> Trim(ms, budget)[k] == ms[k]
    ensures ms[k].name == "confirm" || ms[k].name == "ask_user_choice" ==>
      Trim(ms, budget)[k] == ms[k].(content := Trim(ms, budget)[k].content) &&
      (ms[k].role == "tool" ==> CappedText(ms[k].content, Trim(ms, budget)[k].content))
  {
    TrimKeeps(ms, budget, k);
  }

  // ------------------------------------------------------------ in which order

  lemma SweepIdle(phase: Phase, ms: seq<MsgView>, i: nat, hi: nat, budget: int)
    requires hi <= |ms|
    ensures Total(ms) <= budget ==> Sweep(phase, ms, i, hi, budget) == ms
  {
  }

  /** Replayed chat is at most a placeholder's cost. */
  ghost predicate ChatSpent(ms: seq<MsgView>, out: seq<MsgView>)
    requires |ms| == |out|
  {
    forall k :: 0 <= k < |ms| && OldChat(ms[k]) && !Shortens(ms[k]) ==> Cost(out[k]) <= EstimateTokens(HISTORY_OMITTED)
  }

  lemma ChatStaysSpent(capped: MsgView, chat: MsgView, aged: MsgView, out: MsgView, budget: int)
    requires OldChat(capped) && !Shortens(capped) && Swept(Replay, capped, chat, budget)
    requires aged == chat || Swept(Old, chat, aged, budget)
    requires out == aged || Swept(Fresh, aged, out, budget)
    ensures Cost(out) <= EstimateTokens(HISTORY_OMITTED)
  {
    MarkerSizes();
  }

  lemma Stage(phase: Phase, ms: seq<MsgView>, i: nat, hi: nat, budget: int, k: nat)
    requires hi <= |ms| && k < |ms|
    ensures
      var m' := Sweep(phase, ms, i, hi, budget)[k];
      (m' == ms[k] || Swept(phase, ms[k], m', budget)) &&
      (i <= k < hi && Total(Sweep(phase, ms, i, hi, budget)) > budget ==> Swept(phase, ms[k], m', budget))
  {
    SweepPointwise(phase, ms, i, hi, budget);
  }

  /** A chat sweep that ends over budget has left nothing to take. */
  lemma ChatIsSpent(ms: seq<MsgView>, budget: int, chat: seq<MsgView>, aged: seq<MsgView>)
    requires chat == Sweep(Replay, CapAll(ms), 0, |ms|, budget) && Total(chat) > budget
    requires aged == Sweep(Old, chat, 0, LatestBatch(ms), budget)
    requires Trim(ms, budget) == Sweep(Fresh, aged, LatestBatch(ms), |ms|, budget)
    ensures ChatSpent(ms, Trim(ms, budget))
  {
    var capped, out := CapAll(ms), Trim(ms, budget);
    forall k | 0 <= k < |ms| && OldChat(ms[k]) && !Shortens(ms[k])
      ensures Cost(out[k]) <= EstimateTokens(HISTORY_OMITTED)
    {
      Stage(Replay, capped, 0, |ms|, budget, k);
      Stage(Old, chat, 0, LatestBatch(ms), budget, k);
      Stage(Fresh, aged, LatestBatch(ms), |ms|, budget, k);
      ChatStaysSpent(capped[k], chat[k], aged[k], out[k], budget);
    }
  }

  /** What is not replayed chat comes through the first phase as it is. */
  lemma ChatSweepSkips(ms: seq<MsgView>, budget: int, k: nat)
    requires k < |ms| && !OldChat(ms[k])
    ensures Sweep(Replay, CapAll(ms), 0, |ms|, budget)[k] == Capped(ms[k])
  {
    SweepPointwise(Replay, CapAll(ms), 0, |ms|, budget);
  }

  lemma OldSweepIsFull(chat: seq<MsgView>, aged: seq<MsgView>, b: nat, budget: int, j: nat)
    requires b <= |chat| && aged == Sweep(Old, chat, 0, b, budget) && Total(aged) > budget
    ensures Total(chat) > budget
    ensures j < b && chat[j].Observation() ==> aged[j].content == OMITTED
  {
    SweepPointwise(Old, chat, 0, b, budget);
  }

  lemma FreshLeavesOlder(aged: seq<MsgView>, b: nat, budget: int, j: nat)
    requires j < b <= |aged|
    ensures Sweep(Fresh, aged, b, |aged|, budget)[j] == aged[j]
  {
    SweepPointwise(Fresh, aged, b, |aged|, budget);
  }

  lemma ChatIsStillTool(ms: seq<MsgView>, budget: int, j: nat)
    requires j < |ms| && Shortens(ms[j])
    ensures Sweep(Replay, CapAll(ms), 0, |ms|, budget)[j].Observation()
  {
    Stage(Replay, CapAll(ms), 0, |ms|, budget, j);
  }

  /** A fresh result is shortened only after every older one and all replayed chat is spent. */
  lemma FreshComesLast(ms: seq<MsgView>, budget: int, b: nat, k: nat, j: nat)
    requires BatchStarts(ms, b) && b <= k < |ms| && !OldChat(ms[k])
    requires Trim(ms, budget)[k].content != Capped(ms[k]).content
    ensures j < b && Shortens(ms[j]) ==> Trim(ms, budget)[j].content == OMITTED
    ensures ChatSpent(ms, Trim(ms, budget))
  {
    BatchIsLatest(ms, b);
    var chat, aged := TrimStages(ms, budget);
    ChatSweepSkips(ms, budget, k);
    SweepPointwise(Old, chat, 0, b, budget);
    SweepIdle(Fresh, aged, b, |ms|, budget);
    OldSweepIsFull(chat, aged, b, budget, j);
    ChatIsSpent(ms, budget, chat, aged);
    if j < b && Shortens(ms[j]) {
      FreshLeavesOlder(aged, b, budget, j);
      ChatIsStillTool(ms, budget, j);
    }
  }

  /** An older result is replaced only after all replayed chat is spent. */
  lemma ChatComesFirst(ms: seq<MsgView>, budget: int, b: nat, k: nat)
    requires BatchStarts(ms, b) && k < b && !OldChat(ms[k])
    requires Trim(ms, budget)[k].content != Capped(ms[k]).content
    ensures ChatSpent(ms, Trim(ms, budget))
  {
    BatchIsLatest(ms, b);
    var chat, aged := TrimStages(ms, budget);
    ChatSweepSkips(ms, budget, k);
    SweepPointwise(Fresh, aged, b, |ms|, budget);
    SweepIdle(Old, chat, 0, b, budget);
    ChatIsSpent(ms, budget, chat, aged);
  }

  // ------------------------------------------------------ and no more than that

  /** Undoing the last rewriting of a sweep goes over budget again. */
  lemma {:induction false} SweepIsLazy(phase: Phase, ms: seq<MsgView>, i: nat, hi: nat, budget: int) returns (j: nat)
    requires hi <= |ms| && Sweep(phase, ms, i, hi, budget) != ms
    ensures
      var out := Sweep(phase, ms, i, hi, budget);
      i <= j < hi && out[j] != ms[j] && Total(out[j := ms[j]]) > budget
    decreases hi - i
  {
    var next := ms[i := Rewrite(phase, ms[i], budget, Total(ms))];
    SweepUnfolds(phase, ms, i, hi, budget);
    if Sweep(phase, next, i + 1, hi, budget) == next {
      j := i;
      assert next[i := ms[i]] == ms;
    } else {
      j := SweepIsLazy(phase, next, i + 1, hi, budget);
    }
  }

  /** A list that fits once its results are capped is left alone. */
  lemma FittingIsCappedOnly(ms: seq<MsgView>, budget: int)
    requires Total(CapAll(ms)) <= budget
    ensures Trim(ms, budget) == CapAll(ms)
  {
    var chat, aged := TrimStages(ms, budget);
    SweepIdle(Replay, CapAll(ms), 0, |ms|, budget);
    SweepIdle(Old, chat, 0, LatestBatch(ms), budget);
    SweepIdle(Fresh, aged, LatestBatch(ms), |ms|, budget);
  }

  /** The pass stops as soon as it may: there is a message that it rewrote last, and with that one as
      it was just before, the list is over budget. */
  lemma TrimIsLazy(ms: seq<MsgView>, budget: int) returns (j: nat, before: MsgView)
    requires Trim(ms, budget) != CapAll(ms)
    ensures j < |ms| && before != Trim(ms, budget)[j] && Total(Trim(ms, budget)[j := before]) > budget
    ensures before == Capped(ms[j]) || before == Capped(ms[j]).(content := HISTORY_OMITTED, images := [])
  {
    var chat, aged := TrimStages(ms, budget);
    var b := LatestBatch(ms);
    SweepPointwise(Replay, CapAll(ms), 0, |ms|, budget);
    SweepPointwise(Old, chat, 0, b, budget);
    if Trim(ms, budget) != aged {
      j := SweepIsLazy(Fresh, aged, b, |ms|, budget);
      before := aged[j];
    } else if aged != chat {
      j := SweepIsLazy(Old, chat, 0, b, budget);
      before := chat[j];
    } else {
      j := SweepIsLazy(Replay, CapAll(ms), 0, |ms|, budget);
      before := CapAll(ms)[j];
    }
  }

  /** A cut never takes the total more than 20 tokens below the budget, and one that keeps more than
      512 characters takes it there. */
  lemma FreshCutIsTight(m: MsgView, budget: int, total: int)
    requires m.Observation() && |m.content| > FRESH_LIMIT && total > budget
    ensures
      var m' := Rewrite(Fresh, m, budget, total);
      var after := total - Cost(m) + Cost(m');
      budget - 20 <= after && (|m'.content| > 512 + |FRESH_MARKER| ==> after <= budget)
  {
    MarkerSizes();
  }

  lemma FreshStepIsTight(ms: seq<MsgView>, i: nat, budget: int)
    requires i < |ms| && Total(ms) > budget
    ensures
      var m' := Rewrite(Fresh, ms[i], budget, Total(ms));
      var next := Total(ms[i := m']);
      budget - 20 <= next && (m' != ms[i] && |m'.content| > 512 + |FRESH_MARKER| ==> next <= budget)
  {
    var m' := Rewrite(Fresh, ms[i], budget, Total(ms));
    TotalUpdate(ms, i, m');
    if m' != ms[i] { FreshCutIsTight(ms[i], budget, Total(ms)); }
  }

  lemma {:induction false} FreshSweepIsTight(ms: seq<MsgView>, i: nat, hi: nat, budget: int)
    requires hi <= |ms| && Total(ms) >= budget - 20
    ensures Total(Sweep(Fresh, ms, i, hi, budget)) >= budget - 20
    decreases hi - i
  {
    if Total(ms) > budget && i < hi {
      FreshStepIsTight(ms, i, budget);
      SweepUnfolds(Fresh, ms, i, hi, budget);
      FreshSweepIsTight(ms[i := Rewrite(Fresh, ms[i], budget, Total(ms))], i + 1, hi, budget);
    }
  }

  lemma {:induction false} LongCutEndsSweep(ms: seq<MsgView>, i: nat, hi: nat, budget: int, k: nat)
    requires hi <= |ms| && i <= k < hi && Sweep(Fresh, ms, i, hi, budget)[k] != ms[k]
    requires |Sweep(Fresh, ms, i, hi, budget)[k].content| > 512 + |FRESH_MARKER|
    ensures Total(Sweep(Fresh, ms, i, hi, budget)) <= budget
    decreases hi - i
  {
    var next := ms[i := Rewrite(Fresh, ms[i], budget, Total(ms))];
    SweepUnfolds(Fresh, ms, i, hi, budget);
    SweepPointwise(Fresh, next, i + 1, hi, budget);
    if k > i {
      LongCutEndsSweep(next, i + 1, hi, budget, k);
    } else {
      FreshStepIsTight(ms, i, budget);
      SweepIdle(Fresh, next, i + 1, hi, budget);
    }
  }

  /** No more of the fresh results is given up than the budget asks: once one is shortened, the pass
      ends no more than 20 tokens below it, and within it if that one keeps more than 512 characters. */
  lemma TrimCutsNoMore(ms: seq<MsgView>, budget: int, b: nat, k: nat)
    requires BatchStarts(ms, b) && b <= k < |ms| && !OldChat(ms[k])
    requires Trim(ms, budget)[k].content != Capped(ms[k]).content
    ensures budget - 20 <= Total(Trim(ms, budget))
    ensures |Trim(ms, budget)[k].content| > 512 + |FRESH_MARKER| ==> Total(Trim(ms, budget)) <= budget
  {
    BatchIsLatest(ms, b);
    var chat, aged := TrimStages(ms, budget);
    ChatSweepSkips(ms, budget, k);
    SweepPointwise(Old, chat, 0, b, budget);
    SweepIdle(Fresh, aged, b, |ms|, budget);
    FreshSweepIsTight(aged, b, |ms|, budget);
    if |Trim(ms, budget)[k].content| > 512 + |FRESH_MARKER| { LongCutEndsSweep(aged, b, |ms|, budget, k); }
  }

  // ---------------------------------------------------------- what is counted

  /** Text, each picture, and the calls count; nothing else does. */
  lemma CostCounts(m: MsgView, text: string, picture: nat, calls: string)
    ensures Cost(m.(content := text)) - Cost(m) == EstimateTokens(text) - EstimateTokens(m.content)
    ensures Cost(m.(images := [picture] + m.images)) == Cost(m) + Max(1, picture / 750)
    ensures m.calls == "" && calls != "" ==> Cost(m.(calls := calls)) == Cost(m) + EstimateTokens(calls)
    ensures m.content == m.calls == "" && m.images == [] ==> Cost(m) == 1
  {
    assert ([picture] + m.images)[1..] == m.images;
  }

  lemma {:induction false} TotalConcat(a: seq<MsgView>, b: seq<MsgView>)
    ensures Total(a + b) == Total(a) + Total(b)
    ensures forall m :: Total([m]) == Cost(m)
  {
    forall m ensures Total([m]) == Cost(m) {
      assert [m][1..] == [];
    }
    if a == [] {
      assert a + b == b;
    } else {
      TotalConcat(a[1..], b);
      assert (a + b)[1..] == a[1..] + b;
    }
  }
}
