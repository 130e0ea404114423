/**
  Terminal files of background shells (agent/terminals.py): a header of fixed
  width rewritten in place over a body that only grows, and the unfinished line
  remembered of a shell's input.  One character stands for one byte.
*/
module Terminals {
  import opened Prelude
  import opened Markers

  const PID_WIDTH := 10
  const STATUS_WIDTH := 9
  const RUNNING_MS_WIDTH := 12
  const STDIN_TAIL_LIMIT := 4096

  datatype Status = Running | Aborted | Succeeded | Failed

  function StatusText(status: Status): (s: string)
    ensures |s| <= STATUS_WIDTH
  {
    match status
    case Running => "running"
    case Aborted => "aborted"
    case Succeeded => "succeeded"
    case Failed => "failed"
  }

  function Spaces(n: nat): (s: string)
    ensures |s| == n
  {
    seq(n, _ => ' ')
  }

  /** Left-justified, and never cut. */
  function Pad(text: string, width: nat): (s: string)
    ensures |s| == Max(|text|, width)
  {
    text + Spaces(Max(0, width - |text|))
  }

  /** What stays the same in every header of one session: the encoded directory
      and command, and the start time. */
  datatype Fixed = Fixed(cwd: string, command: string, startedAt: string)

  /** The header around its three changing fields. */
  function Laid(f: Fixed, p: string, s: string, m: string): string {
    "---\npid: " + p + "\ncwd: " + f.cwd + "\ncommand: " + f.command + "\nstatus: " + s
    + "\nstarted_at: " + f.startedAt + "\nrunning_for_ms: " + m + "\n---\n"
  }

  function Header(f: Fixed, pid: Option<nat>, status: Status, runningMs: nat): string {
    Laid(f, Pad(if pid.None? then "" else Decimal(pid.value), PID_WIDTH), Pad(StatusText(status), STATUS_WIDTH),
         Pad(Decimal(runningMs), RUNNING_MS_WIDTH))
  }

  function Width(f: Fixed): nat {
    100 + |f.cwd| + |f.command| + |f.startedAt|
  }

  lemma {:induction false} HeaderLength(f: Fixed, pid: Option<nat>, status: Status, runningMs: nat)
    ensures |Header(f, pid, status, runningMs)|
      == Width(f) + Max(0, (if pid.None? then 0 else |Decimal(pid.value)|) - PID_WIDTH)
                  + Max(0, |Decimal(runningMs)| - RUNNING_MS_WIDTH)
  {
    assert |"---\npid: "| == 9 && |"\ncwd: "| == 6 && |"\ncommand: "| == 10;
    assert |"\nstatus: "| == 9 && |"\nstarted_at: "| == 13 && |"\nrunning_for_ms: "| == 17 && |"\n---\n"| == 5;
  }

  /** The header keeps its width exactly while the process id has at most ten
      digits and the running time at most twelve, whatever the status. */
  lemma {:induction false} WidthIsFixedIff(f: Fixed, pid: Option<nat>, status: Status, runningMs: nat)
    ensures |Header(f, pid, status, runningMs)| == Width(f)
      <==> (pid.Some? ==> pid.value < Pow10(PID_WIDTH)) && runningMs < Pow10(RUNNING_MS_WIDTH)
  {
    HeaderLength(f, pid, status, runningMs);
    if pid.Some? {
      DecimalLength(pid.value, PID_WIDTH);
    }
    DecimalLength(runningMs, RUNNING_MS_WIDTH);
  }

  /** The text and blanks up to the width. */
  predicate Fills(field: string, text: string, width: nat) {
    |text| <= width == |field| && field[..|text|] == text && forall x :: |text| <= x < width ==> field[x] == ' '
  }

  predicate Says(status: Status, text: string) {
    match status
    case Running => text == "running"
    case Aborted => text == "aborted"
    case Succeeded => text == "succeeded"
    case Failed => text == "failed"
  }

  ghost predicate FieldsReport(p: string, s: string, m: string, pid: Option<nat>, status: Status, runningMs: nat) {
    (if pid.None? then Fills(p, "", 10) else exists own :: Spells(own, pid.value) && Fills(p, own, 10)) &&
    (exists word :: Says(status, word) && Fills(s, word, 9)) &&
    exists digits :: Spells(digits, runningMs) && Fills(m, digits, 12)
  }

  /** Each field reads back, at its place: the process id, the status, and the running time. */
  ghost predicate Reports(header: string, f: Fixed, pid: Option<nat>, status: Status, runningMs: nat) {
    exists p, s, m :: header == Laid(f, p, s, m) && FieldsReport(p, s, m, pid, status, runningMs)
  }

  lemma FieldsFill(pid: Option<nat>, status: Status, runningMs: nat)
    requires (pid.Some? ==> pid.value < Pow10(PID_WIDTH)) && runningMs < Pow10(RUNNING_MS_WIDTH)
    ensures
      var own := if pid.None? then "" else Decimal(pid.value);
      Fills(Pad(own, PID_WIDTH), own, 10)
    ensures Fills(Pad(StatusText(status), STATUS_WIDTH), StatusText(status), 9) && Says(status, StatusText(status))
    ensures Fills(Pad(Decimal(runningMs), RUNNING_MS_WIDTH), Decimal(runningMs), 12)
  {
    if pid.Some? {
      DecimalLength(pid.value, PID_WIDTH);
    }
    DecimalLength(runningMs, RUNNING_MS_WIDTH);
  }

  lemma HeaderReports(f: Fixed, pid: Option<nat>, status: Status, runningMs: nat)
    requires (pid.Some? ==> pid.value < Pow10(PID_WIDTH)) && runningMs < Pow10(RUNNING_MS_WIDTH)
    ensures Reports(Header(f, pid, status, runningMs), f, pid, status, runningMs)
  {
    var own := if pid.None? then "" else Decimal(pid.value);
    var p, s := Pad(own, PID_WIDTH), Pad(StatusText(status), STATUS_WIDTH);
    var m := Pad(Decimal(runningMs), RUNNING_MS_WIDTH);
    assert Header(f, pid, status, runningMs) == Laid(f, p, s, m);
    FieldsFill(pid, status, runningMs);
    if pid.Some? { DecimalReads(pid.value); }
    DecimalReads(runningMs);
    assert FieldsReport(p, s, m, pid, status, runningMs);
  }

  /** A write of data at offset 0 of a file. */
  function Overwrite(file: string, data: string): string {
    data + if |data| < |file| then file[|data|..] else ""
  }

  /** Rewriting a header in place keeps a body that has begun if and only if the
      new header is as long as the old one. */
  lemma {:induction false} RewriteKeepsBodyIff(header: string, body: string, again: string)
    requires body != ""
    ensures Overwrite(header + body, again) == again + body <==> |again| == |header|
  {
    var file := header + body;
    if |again| == |header| {
      assert file[|again|..] == body;
    } else {
      assert |Overwrite(file, again)| == Max(|file|, |again|) != |again + body|;
    }
  }

  function Concat(chunks: seq<string>): string {
    if chunks == [] then "" else Concat(chunks[..|chunks| - 1]) + chunks[|chunks| - 1]
  }

  lemma {:induction false} ConcatAppend(chunks: seq<string>, chunk: string)
    ensures Concat(chunks + [chunk]) == Concat(chunks) + chunk
  {
    assert (chunks + [chunk])[..|chunks|] == chunks;
  }

  predicate InRange(pid: Option<nat>, runningMs: nat) {
    (pid.Some? ==> pid.value < Pow10(PID_WIDTH)) && runningMs < Pow10(RUNNING_MS_WIDTH)
  }

  lemma {:induction false} RewriteInPlace(f: Fixed, file: string, pid: Option<nat>, status: Status, runningMs: nat)
    requires |file| >= Width(f) && InRange(pid, runningMs)
    ensures |Overwrite(file, Header(f, pid, status, runningMs))| == |file|
    ensures Overwrite(file, Header(f, pid, status, runningMs))[..Width(f)] == Header(f, pid, status, runningMs)
    ensures Overwrite(file, Header(f, pid, status, runningMs))[Width(f)..] == file[Width(f)..]
  {
    WidthIsFixedIff(f, pid, status, runningMs);
  }

  /** One background command.  Its own output, echoed input, header updates and
      the two halves of finalizing may interleave in any order. */
  class Session {
    const fixed: Fixed
    var file: string
    var pid: Option<nat>
    var status: Status
    var cancelled: bool
    var finalized: bool
    var closed: bool
    ghost var chunks: seq<string>   // everything appended, in order
    ghost var footers: nat

    /** The body is exactly what was appended, with at most one footer. */
    ghost predicate Valid()
      reads this
    {
      && |file| >= Width(fixed)
      && file[Width(fixed)..] == Concat(chunks)
      && (pid.Some? ==> pid.value < Pow10(PID_WIDTH))
      && footers == (if finalized then 1 else 0)
      && (closed ==> finalized)
    }

    constructor (fixed: Fixed, runningMs: nat)
      requires runningMs < Pow10(RUNNING_MS_WIDTH)
      ensures Valid() && chunks == [] && this.fixed == fixed && !finalized
      ensures file == Header(fixed, None, Running, runningMs)
    {
      WidthIsFixedIff(fixed, None, Running, runningMs);
      this.fixed := fixed;
      file := Header(fixed, None, Running, runningMs);
      pid, status, cancelled, finalized, closed := None, Running, false, false, false;
      chunks, footers := [], 0;
    }

    method RewriteHeader(runningMs: nat)
      requires Valid() && runningMs < Pow10(RUNNING_MS_WIDTH)
      modifies this`file
      ensures Valid() && file[Width(fixed)..] == old(file[Width(fixed)..])
      ensures !closed ==> file[..Width(fixed)] == Header(fixed, pid, status, runningMs)
      ensures !closed ==> Reports(file[..Width(fixed)], fixed, pid, status, runningMs)
      ensures closed ==> file == old(file)
    {
      HeaderReports(fixed, pid, status, runningMs);
      if closed {
        return;
      }
      RewriteInPlace(fixed, file, pid, status, runningMs);
      file := Overwrite(file, Header(fixed, pid, status, runningMs));
    }

    method Spawned(pid: nat, runningMs: nat)
      requires Valid() && InRange(Some(pid), runningMs)
      modifies this`file, this`pid
      ensures Valid() && this.pid == Some(pid) && file[Width(fixed)..] == old(file[Width(fixed)..])
    {
      this.pid := Some(pid);
      RewriteHeader(runningMs);
    }

    method Append(data: string)
      requires Valid()
      modifies this`file, this`chunks
      ensures Valid() && chunks == old(chunks) + [data] && file == old(file) + data
    {
      ConcatAppend(chunks, data);
      assert (file + data)[Width(fixed)..] == file[Width(fixed)..] + data;
      file := file + data;
      chunks := chunks + [data];
    }

    /** Marks the command as cancelled; its process group is killed and the session finalized. */
    method Cancel()
      requires Valid()
      modifies this`cancelled
      ensures Valid() && cancelled
    {
      cancelled := true;
    }

    /** A cancelled command ends aborted, whatever its exit code, unless the watcher finalized first. */
    method CancelAndFinalize(footer: string, exitCode: int, runningMs: nat)
      requires Valid() && runningMs < Pow10(RUNNING_MS_WIDTH)
      modifies this
      ensures Valid() && cancelled && footers == 1
      ensures chunks == if old(finalized) then old(chunks) else old(chunks) + [footer]
      ensures !old(finalized) ==> closed && status == Aborted
      ensures !old(finalized) ==> file[..Width(fixed)] == Header(fixed, pid, Aborted, runningMs)
      ensures old(finalized) ==> file == old(file) && status == old(status)
    {
      Cancel();
      var first := FinalizeBody(footer);
      if first {
        FinalizeHeader(exitCode, runningMs);
      }
    }

    /** Watcher and canceller may both get here; only the first writes a footer. */
    method FinalizeBody(footer: string) returns (first: bool)
      requires Valid()
      modifies this`file, this`chunks, this`finalized, this`footers
      ensures Valid() && finalized && footers == 1
      ensures first <==> !old(finalized)
      ensures chunks == if first then old(chunks) + [footer] else old(chunks)
      ensures file == if first then old(file) + footer else old(file)
    {
      if finalized {
        return false;
      }
      finalized, footers := true, footers + 1;
      Append(footer);
      first := true;
    }

    method FinalizeHeader(exitCode: int, runningMs: nat)
      requires Valid() && finalized && !closed && runningMs < Pow10(RUNNING_MS_WIDTH)
      modifies this`file, this`status, this`closed
      ensures Valid() && closed && file[Width(fixed)..] == old(file[Width(fixed)..])
      ensures file[..Width(fixed)] == Header(fixed, pid, status, runningMs)
      ensures status == if cancelled then Aborted else if exitCode == 0 then Succeeded else Failed
    {
      status := if cancelled then Aborted else if exitCode == 0 then Succeeded else Failed;
      RewriteHeader(runningMs);
      closed := true;
    }
  }

  // ---- the unfinished line of a shell's input ----

  /** What follows the last newline. */
  function Unfinished(text: string): (line: string)
    ensures '\n' !in line
  {
    if '\n' !in text then text else Unfinished(text[1..])
  }

  /** It is what stands at the end, as far back as the last newline or the start. */
  lemma {:induction false} UnfinishedIsTheEnd(text: string)
    ensures
      var line := Unfinished(text);
      |line| <= |text| && text[|text| - |line|..] == line && (line == text || text[|text| - |line| - 1] == '\n')
  {
    if '\n' in text {
      UnfinishedIsTheEnd(text[1..]);
    }
  }

  function Newest(text: string, limit: nat): string {
    if |text| > limit then text[|text| - limit..] else text
  }

  function Tail(text: string): string {
    Newest(Unfinished(text), STDIN_TAIL_LIMIT)
  }

  lemma {:induction false} UnfinishedWithBreak(a: string, b: string)
    requires '\n' in b
    ensures Unfinished(a + b) == Unfinished(b)
    decreases |a|
  {
    if a == [] {
      assert a + b == b;
    } else {
      assert '\n' in a + b;
      assert (a + b)[1..] == a[1..] + b;
      UnfinishedWithBreak(a[1..], b);
    }
  }

  lemma {:induction false} UnfinishedWithout(a: string, b: string)
    requires '\n' !in b
    ensures Unfinished(a + b) == Unfinished(a) + b
    decreases |a|
  {
    if '\n' in a {
      assert '\n' in a + b;
      assert (a + b)[1..] == a[1..] + b;
      UnfinishedWithout(a[1..], b);
    }
  }

  /** Cutting the remembered tail loses nothing a later write could need. */
  lemma {:induction false} TailStep(a: string, b: string)
    ensures Tail(Tail(a) + b) == Tail(a + b)
  {
    if '\n' in b {
      UnfinishedWithBreak(a, b);
      UnfinishedWithBreak(Tail(a), b);
    } else {
      UnfinishedWithout(a, b);
      var line := Unfinished(a);
      assert '\n' !in Tail(a) + b;
      assert Newest(Newest(line, STDIN_TAIL_LIMIT) + b, STDIN_TAIL_LIMIT) == Newest(line + b, STDIN_TAIL_LIMIT);
    }
  }

  /** The remembered tails of all shells; a shell without one has none kept. */
  class Tails<Key(==, !new)> {
    var tails: map<Key, string>

    function Pending(key: Key): string
      reads this
    {
      if key in tails then tails[key] else ""
    }

    method NoteStdin(key: Key, chars: string)
      modifies this
      ensures Pending(key) == Tail(old(Pending(key)) + chars)
      ensures forall other :: other != key ==> Pending(other) == old(Pending(other))
    {
      var text := Tail(Pending(key) + chars);
      if text != "" {
        tails := tails[key := text];
      } else {
        tails := tails - {key};
      }
    }
  }

  /** What is remembered after a sequence of writes to one shell. */
  function Remembered(writes: seq<string>): string {
    if writes == [] then "" else Tail(Remembered(writes[..|writes| - 1]) + writes[|writes| - 1])
  }

  /** Whatever the writes, the remembered tail is that of the whole input: its
      last 4096 characters after its last newline. */
  lemma {:induction false} TailOfWholeInput(writes: seq<string>)
    ensures Remembered(writes) == Tail(Concat(writes))
  {
    if writes != [] {
      var front := writes[..|writes| - 1];
      TailOfWholeInput(front);
      TailStep(Concat(front), writes[|writes| - 1]);
    }
  }
}
