/**
 What a rebuilt thread says, read off the rows of the log: who spoke, in which order, with which
 words, and which summaries stand for what went before.
 */
module Threads {
  import opened Prelude
  import opened SessionLog

  // ------------------------------------------------------------- paragraphs

  predicate Stands(text: string, at: nat, part: string) {
    at + |part| <= |text| && text[at..at + |part|] == part
  }

  /** `parts`, one after the other, with a blank line between. */
  ghost predicate Laid(text: string, parts: seq<string>, starts: seq<nat>) {
    |starts| == |parts| > 0 && starts[0] == 0 &&
    (forall i :: 0 <= i < |parts| ==> Stands(text, starts[i], parts[i])) &&
    (forall i :: 0 < i < |parts| ==> Follows(text, starts[i - 1] + |parts[i - 1]|, starts[i])) &&
    starts[|parts| - 1] + |parts[|parts| - 1]| == |text|
  }

  predicate Follows(text: string, end: nat, start: nat) {
    start == end + 2 && Stands(text, end, "\n\n")
  }

  ghost predicate Paragraphs(text: string, parts: seq<string>) {
    exists starts :: Laid(text, parts, starts)
  }

  lemma OneParagraph(text: string)
    ensures Paragraphs(text, [text])
  {
    assert Laid(text, [text], [0]);
  }

  lemma NextParagraph(text: string, parts: seq<string>, part: string)
    requires Paragraphs(text, parts)
    ensures Paragraphs(text + "\n\n" + part, parts + [part])
  {
    var starts :| Laid(text, parts, starts);
    LaidMore(text, parts, starts, part, text + "\n\n" + part);
  }

  lemma StandsInMore(text: string, more: string, at: nat, part: string)
    requires Stands(text, at, part)
    ensures Stands(text + more, at, part)
  {
    assert (text + more)[at..at + |part|] == text[at..at + |part|];
  }

  lemma LaidMore(text: string, parts: seq<string>, starts: seq<nat>, part: string, whole: string)
    requires Laid(text, parts, starts) && whole == text + "\n\n" + part
    ensures Laid(whole, parts + [part], starts + [|text| + 2])
  {
    var all, at, more := parts + [part], starts + [|text| + 2], "\n\n" + part;
    assert whole == text + more && |more| == 2 + |part|;
    assert Stands(whole, |text|, "\n\n") && Stands(whole, |text| + 2, part);
    forall i | 0 <= i < |all| ensures Stands(whole, at[i], all[i]) {
      if i < |parts| { StandsInMore(text, more, starts[i], parts[i]); }
    }
    forall i | 0 < i < |all| ensures Follows(whole, at[i - 1] + |all[i - 1]|, at[i]) {
      if i < |parts| {
        assert Follows(text, starts[i - 1] + |parts[i - 1]|, starts[i]);
        StandsInMore(text, more, starts[i - 1] + |parts[i - 1]|, "\n\n");
      }
    }
  }

  // ----------------------------------------------------------------- merging

  function Words(es: seq<Turn>): (texts: seq<string>)
    ensures |texts| == |es| && forall i :: 0 <= i < |es| ==> texts[i] == es[i].text
  {
    seq(|es|, i requires 0 <= i < |es| => es[i].text)
  }

  /** One turn for a run of entries by one speaker: from the first one's time, with all they said. */
  ghost predicate StandsFor(t: Turn, run: seq<Turn>) {
    run != [] && t.ts == run[0].ts && (forall e <- run :: e.role == t.role) && Paragraphs(t.text, Words(run))
  }

  function Flatten(runs: seq<seq<Turn>>): seq<Turn> {
    if runs == [] then [] else Flatten(runs[..|runs| - 1]) + runs[|runs| - 1]
  }

  ghost predicate MergesRuns(turns: seq<Turn>, runs: seq<seq<Turn>>) {
    |turns| == |runs| && (forall k :: 0 <= k < |turns| ==> StandsFor(turns[k], runs[k])) &&
    forall k :: 0 <= k < |turns| - 1 ==> turns[k].role != turns[k + 1].role
  }

  /** The turns are the entries, each longest run of one speaker as one turn. */
  ghost predicate Merged(turns: seq<Turn>, es: seq<Turn>) {
    exists runs :: Flatten(runs) == es && MergesRuns(turns, runs)
  }

  lemma AloneStands(e: Turn)
    ensures StandsFor(e, [e])
  {
    OneParagraph(e.text);
    assert Words([e]) == [e.text];
  }

  lemma OneMoreStands(t: Turn, run: seq<Turn>, e: Turn)
    requires StandsFor(t, run) && t.role == e.role
    ensures StandsFor(t.(text := t.text + "\n\n" + e.text), run + [e])
  {
    NextParagraph(t.text, Words(run), e.text);
    assert Words(run + [e]) == Words(run) + [e.text];
  }

  lemma FlattenMore(runs: seq<seq<Turn>>, run: seq<Turn>)
    ensures Flatten(runs + [run]) == Flatten(runs) + run
  {
    assert (runs + [run])[..|runs|] == runs;
  }

  /** One more turn, or the last one changed, when the others keep their runs. */
  lemma RunsEnd(turns: seq<Turn>, runs: seq<seq<Turn>>, t: Turn, run: seq<Turn>)
    requires MergesRuns(turns, runs) && StandsFor(t, run) && (turns != [] ==> turns[|turns| - 1].role != t.role)
    ensures MergesRuns(turns + [t], runs + [run])
  {
    forall k | 0 <= k <= |turns| ensures StandsFor((turns + [t])[k], (runs + [run])[k]) {
      if k < |turns| {
        assert (turns + [t])[k] == turns[k] && (runs + [run])[k] == runs[k];
      }
    }
  }

  lemma RunsInit(turns: seq<Turn>, runs: seq<seq<Turn>>)
    requires MergesRuns(turns, runs) && turns != []
    ensures MergesRuns(turns[..|turns| - 1], runs[..|turns| - 1])
    ensures |turns| > 1 ==> turns[|turns| - 2].role != turns[|turns| - 1].role
  {
  }

  lemma MergeSame(turns: seq<Turn>, runs: seq<seq<Turn>>, e: Turn) returns (more: seq<seq<Turn>>)
    requires MergesRuns(turns, runs) && turns != [] && turns[|turns| - 1].role == e.role
    ensures MergesRuns(Push(turns, e), more) && Flatten(more) == Flatten(runs) + [e]
  {
    var n := |runs| - 1;
    OneMoreStands(turns[n], runs[n], e);
    RunsInit(turns, runs);
    RunsEnd(turns[..n], runs[..n], turns[n].(text := turns[n].text + "\n\n" + e.text), runs[n] + [e]);
    more := runs[..n] + [runs[n] + [e]];
    FlattenMore(runs[..n], runs[n] + [e]);
    assert Flatten(runs[..n]) + (runs[n] + [e]) == Flatten(runs) + [e];
  }

  lemma MergeNew(turns: seq<Turn>, runs: seq<seq<Turn>>, e: Turn) returns (more: seq<seq<Turn>>)
    requires MergesRuns(turns, runs) && (turns != [] ==> turns[|turns| - 1].role != e.role)
    ensures MergesRuns(Push(turns, e), more) && Flatten(more) == Flatten(runs) + [e]
  {
    AloneStands(e);
    RunsEnd(turns, runs, e, [e]);
    more := runs + [[e]];
    FlattenMore(runs, [e]);
  }

  lemma MergeNext(turns: seq<Turn>, runs: seq<seq<Turn>>, e: Turn) returns (more: seq<seq<Turn>>)
    requires MergesRuns(turns, runs)
    ensures MergesRuns(Push(turns, e), more) && Flatten(more) == Flatten(runs) + [e]
  {
    if turns != [] && turns[|turns| - 1].role == e.role {
      more := MergeSame(turns, runs, e);
    } else {
      more := MergeNew(turns, runs, e);
    }
  }

  lemma LastOf(es: seq<Turn>)
    requires es != []
    ensures es == es[..|es| - 1] + [es[|es| - 1]]
  {
  }

  lemma {:induction false} CoalesceRuns(es: seq<Turn>) returns (runs: seq<seq<Turn>>)
    ensures Flatten(runs) == es && MergesRuns(Coalesce(es), runs)
  {
    if es == [] {
      runs := [];
    } else {
      var init, e := es[..|es| - 1], es[|es| - 1];
      var front := CoalesceRuns(init);
      runs := MergeNext(Coalesce(init), front, e);
      LastOf(es);
      CoalescePush(init, e);
    }
  }

  /** Coalescing keeps every text, in order, one speaker at a time. */
  lemma CoalesceMerges(es: seq<Turn>)
    ensures Merged(Coalesce(es), es)
  {
    var runs := CoalesceRuns(es);
  }

  // ------------------------------------------------------------ who said what

  /** A line of the 1:1 talk: not of a room or side thread, not a receipt. */
  predicate Chat(r: Record) {
    r.Line? && !r.room && !r.thread && !r.ack && r.speaker != NotChat
  }

  predicate FromUser(r: Record) {
    Chat(r) && r.speaker.In?
  }

  predicate SentBy(r: Record, peer: string)
    requires FromUser(r)
  {
    peer == if r.peer != "" then r.peer else r.speaker.sender
  }

  ghost predicate SpokeLast(log: seq<Record>, i: nat, j: nat) {
    j < i <= |log| && FromUser(log[j]) && forall k :: j < k < i ==> !FromUser(log[k])
  }

  /** The line names its peer, or is the peer's own; a bot's line that names none answers whoever
      spoke last before it. */
  ghost predicate Belongs(log: seq<Record>, i: nat, peer: string)
    requires i < |log|
  {
    var r := log[i];
    Chat(r) &&
    if r.speaker.In? then SentBy(r, peer)
    else if r.peer != "" then r.peer == peer
    else
      (exists j: nat :: SpokeLast(log, i, j) && SentBy(log[j], peer)) ||
      (peer == "" && forall j :: 0 <= j < i ==> !FromUser(log[j]))
  }

  /** Row `i` is a line of the thread with `peer`, not before `lo`, and has something to say. */
  ghost predicate Counts(log: seq<Record>, i: nat, peer: string, lo: real) {
    i < |log| && Belongs(log, i, peer) && lo <= log[i].ts && (log[i].text != "" || log[i].note != "")
  }

  /** The text, the note on its attachments after it. */
  predicate Says(r: Record, text: string) {
    r.Line? &&
    (r.note == "" ==> text == r.text) &&
    (r.note != "" && r.text == "" ==> text == r.note) &&
    (r.note != "" && r.text != "" ==> text == r.text + "\n" + r.note)
  }

  predicate IsEntry(r: Record, e: Turn) {
    e.ts == r.ts && Says(r, e.text) && e.role == if r.speaker.In? then User else Assistant
  }

  ghost predicate Shows(log: seq<Record>, rows: seq<nat>, es: seq<Turn>) {
    |rows| == |es| && forall k :: 0 <= k < |rows| ==> rows[k] < |log| && IsEntry(log[rows[k]], es[k])
  }

  ghost predicate Transcribes(log: seq<Record>, peer: string, lo: real, rows: seq<nat>, es: seq<Turn>) {
    Shows(log, rows, es) && (forall j, k :: 0 <= j < k < |rows| ==> rows[j] < rows[k]) &&
    forall i: nat :: i in rows <==> Counts(log, i, peer, lo)
  }

  /** The thread with `peer` from time `lo` on: its lines in log order, merged. */
  ghost predicate ThreadIs(log: seq<Record>, peer: string, lo: real, turns: seq<Turn>) {
    exists rows, es :: Transcribes(log, peer, lo, rows, es) && Merged(turns, es)
  }

  lemma {:induction false} LastSenderIs(log: seq<Record>)
    ensures
      (exists j: nat :: SpokeLast(log, |log|, j) && SentBy(log[j], LastSender(log))) ||
      (LastSender(log) == "" && forall j :: 0 <= j < |log| ==> !FromUser(log[j]))
  {
    if log != [] {
      var init, r := log[..|log| - 1], log[|log| - 1];
      if FromUser(r) {
        assert SpokeLast(log, |log|, |log| - 1);
      } else {
        LastSenderIs(init);
        if j: nat :| SpokeLast(init, |init|, j) && SentBy(init[j], LastSender(init)) {
          assert SpokeLast(log, |log|, j) by {
            assert forall k :: 0 <= k < |init| ==> log[k] == init[k];
          }
        }
      }
    }
  }

  lemma SpokeOnce(log: seq<Record>, i: nat, j: nat, k: nat)
    requires SpokeLast(log, i, j) && SpokeLast(log, i, k)
    ensures j == k
  {
  }

  /** The owner of a bot's line that names nobody. */
  lemma AnswersLast(log: seq<Record>, r: Record, peer: string)
    requires Chat(r) && r.speaker.Out? && r.peer == ""
    ensures Belongs(log + [r], |log|, peer) <==> LastSender(log) == peer
  {
    var all, i := log + [r], |log|;
    LastSenderIs(log);
    assert forall k :: 0 <= k < i ==> all[k] == log[k];
    assert forall j: nat :: SpokeLast(log, i, j) <==> SpokeLast(all, i, j);
    if j: nat :| SpokeLast(log, i, j) && SentBy(log[j], LastSender(log)) {
      assert SpokeLast(all, i, j);
      forall k: nat | SpokeLast(all, i, k) ensures k == j { SpokeOnce(all, i, j, k); }
    }
  }

  lemma LastRowCounts(log: seq<Record>, r: Record, peer: string, lo: real)
    ensures
      var t := TurnOf(r, LastSender(log), peer);
      (Counts(log + [r], |log|, peer, lo) <==> t.Some? && lo <= t.value.ts) && (t.Some? ==> IsEntry(r, t.value))
  {
    assert (log + [r])[|log|] == r;
    if Chat(r) && r.speaker.Out? && r.peer == "" { AnswersLast(log, r, peer); }
  }

  /** Rows logged later do not change whose line a row is. */
  lemma CountsBefore(log: seq<Record>, r: Record, i: nat, peer: string, lo: real)
    requires i < |log|
    ensures Counts(log + [r], i, peer, lo) <==> Counts(log, i, peer, lo)
  {
    var all := log + [r];
    assert forall k :: 0 <= k < |log| ==> all[k] == log[k];
    assert forall j: nat :: SpokeLast(log, i, j) <==> SpokeLast(all, i, j);
  }

  /** Positions below `n` that satisfy a condition, and then `n` itself or not. */
  lemma RowsExtend(rows: seq<nat>, n: nat, was: nat -> bool, now: nat -> bool)
    requires forall i: nat :: i in rows <==> was(i)
    requires forall i: nat :: i < n ==> (now(i) <==> was(i))
    requires forall i: nat :: (i >= n ==> !was(i)) && (i > n ==> !now(i))
    ensures forall i: nat :: i in rows + (if now(n) then [n] else []) <==> now(i)
  {
  }

  lemma CountsExtend(log: seq<Record>, r: Record, peer: string, lo: real, rows: seq<nat>)
    requires forall i: nat :: i in rows <==> Counts(log, i, peer, lo)
    ensures
      var more := if Counts(log + [r], |log|, peer, lo) then [|log|] else [];
      forall i: nat :: i in rows + more <==> Counts(log + [r], i, peer, lo)
  {
    forall i: nat | i < |log| ensures Counts(log + [r], i, peer, lo) <==> Counts(log, i, peer, lo) {
      CountsBefore(log, r, i, peer, lo);
    }
    RowsExtend(rows, |log|, (i: nat) => Counts(log, i, peer, lo), (i: nat) => Counts(log + [r], i, peer, lo));
  }

  lemma ShowsMore(log: seq<Record>, r: Record, rows: seq<nat>, es: seq<Turn>)
    requires Shows(log, rows, es)
    ensures Shows(log + [r], rows, es)
    ensures forall e :: IsEntry(r, e) ==> Shows(log + [r], rows + [|log|], es + [e])
  {
    assert forall i :: 0 <= i < |log| ==> (log + [r])[i] == log[i];
  }

  lemma TranscribeNext(log: seq<Record>, r: Record, peer: string, lo: real, rows: seq<nat>, es: seq<Turn>)
    requires Transcribes(log, peer, lo, rows, es)
    ensures
      var t := TurnOf(r, LastSender(log), peer);
      if t.Some? && lo <= t.value.ts then Transcribes(log + [r], peer, lo, rows + [|log|], es + [t.value])
      else Transcribes(log + [r], peer, lo, rows, es)
  {
    LastRowCounts(log, r, peer, lo);
    CountsExtend(log, r, peer, lo, rows);
    ShowsMore(log, r, rows, es);
    assert rows + [] == rows;
  }

  lemma EntriesNext(log: seq<Record>, peer: string, lo: real)
    requires log != []
    ensures
      var init := log[..|log| - 1];
      var t := TurnOf(log[|log| - 1], LastSender(init), peer);
      Between(Entries(log, peer), lo, None) ==
      Between(Entries(init, peer), lo, None) + if t.Some? && lo <= t.value.ts then [t.value] else []
  {
    var init := log[..|log| - 1];
    BetweenNext(Entries(init, peer), TurnOf(log[|log| - 1], LastSender(init), peer), lo);
    assert Entries(init, peer) + [] == Entries(init, peer);
  }

  lemma {:induction false} EntriesTranscribe(log: seq<Record>, peer: string, lo: real) returns (rows: seq<nat>)
    ensures Transcribes(log, peer, lo, rows, Between(Entries(log, peer), lo, None))
  {
    if log == [] {
      rows := [];
    } else {
      var init, r := log[..|log| - 1], log[|log| - 1];
      rows := EntriesTranscribe(init, peer, lo);
      EntriesNext(log, peer, lo);
      assert init + [r] == log;
      rows := OneMoreRow(init, r, peer, lo, rows, Between(Entries(init, peer), lo, None));
    }
  }

  lemma OneMoreRow(log: seq<Record>, r: Record, peer: string, lo: real, rows: seq<nat>, es: seq<Turn>)
    returns (more: seq<nat>)
    requires Transcribes(log, peer, lo, rows, es)
    ensures
      var t := TurnOf(r, LastSender(log), peer);
      Transcribes(log + [r], peer, lo, more, es + if t.Some? && lo <= t.value.ts then [t.value] else [])
  {
    var t := TurnOf(r, LastSender(log), peer);
    TranscribeNext(log, r, peer, lo, rows, es);
    assert es + [] == es;
    more := rows + if t.Some? && lo <= t.value.ts then [|log|] else [];
    assert rows + [] == rows;
  }

  lemma BetweenNext(es: seq<Turn>, t: Option<Turn>, lo: real)
    ensures
      Between(es + (if t.Some? then [t.value] else []), lo, None) ==
      Between(es, lo, None) + if t.Some? && lo <= t.value.ts then [t.value] else []
  {
    if t.Some? {
      assert (es + [t.value])[..|es|] == es;
    } else {
      assert es + [] == es;
    }
  }

  lemma RebuiltIsThread(log: seq<Record>, peer: string, lo: real)
    ensures ThreadIs(log, peer, lo, Coalesce(Between(Entries(log, peer), lo, None)))
  {
    var es := Between(Entries(log, peer), lo, None);
    var rows := EntriesTranscribe(log, peer, lo);
    CoalesceMerges(es);
  }
}
