/**
  One request's stream file (agent/streaming.py): a writer that only appends
  newline-terminated frames, and a reader that polls the growing file.
*/
module StreamFile {
  import opened Prelude

  type Byte = bv8

  const NEWLINE: Byte := 10

  /** A decoded event and the offset just past its line: where to resume. */
  datatype Event<E> = Event(body: E, offset: nat)

  // ---- reading ----

  /** The offset just past the first newline at or after from, or 0 when the
      file holds no such newline yet: where the line that readline returns is
      complete. */
  function LineEnd(file: seq<Byte>, from: nat): (end: nat)
    ensures end == 0 || from < end <= |file|
    decreases |file| - from
  {
    if from >= |file| then 0
    else if file[from] == NEWLINE then from + 1
    else LineEnd(file, from + 1)
  }

  /** The ends of the complete lines, in one pass from an offset. */
  function Ends(file: seq<Byte>, from: nat): (ends: seq<nat>)
    decreases |file| - from
  {
    var end := LineEnd(file, from);
    if end == 0 then [] else [end] + Ends(file, end)
  }

  /** Where that pass stops: the end of the last complete line. */
  function Stop(file: seq<Byte>, from: nat): nat
    decreases |file| - from
  {
    var end := LineEnd(file, from);
    if end == 0 then from else Stop(file, end)
  }

  /** Ends of successive lines of a file from an offset. */
  predicate Fits(from: nat, ends: seq<nat>, length: nat)
    decreases |ends|
  {
    ends == [] || (from < ends[0] <= length && Fits(ends[0], ends[1..], length))
  }

  /** What one line yields; parse stands for strip, decode and JSON, and is None
      for a line that is skipped. */
  function Decoded<E>(parse: seq<Byte> -> Option<E>, raw: seq<Byte>, end: nat): seq<Event<E>> {
    match parse(raw)
    case None => []
    case Some(body) => [Event(body, end)]
  }

  /** The events of those lines. */
  function Decode<E>(parse: seq<Byte> -> Option<E>, file: seq<Byte>, from: nat, ends: seq<nat>): seq<Event<E>>
    requires Fits(from, ends, |file|)
    decreases |ends|
  {
    if ends == [] then []
    else
      Decoded(parse, file[from..ends[0]], ends[0]) + Decode(parse, file, ends[0], ends[1..])
  }

  lemma {:induction false} EndsFit(file: seq<Byte>, from: nat)
    ensures Fits(from, Ends(file, from), |file|)
    decreases |file| - from
  {
    var end := LineEnd(file, from);
    if end != 0 {
      EndsFit(file, end);
    }
  }

  /** What one pass from an offset yields. */
  function Events<E>(parse: seq<Byte> -> Option<E>, file: seq<Byte>, from: nat): seq<Event<E>> {
    EndsFit(file, from);
    Decode(parse, file, from, Ends(file, from))
  }

  lemma {:induction false} EndGrows(file: seq<Byte>, more: seq<Byte>, from: nat)
    requires LineEnd(file, from) != 0
    ensures LineEnd(file + more, from) == LineEnd(file, from)
    decreases |file| - from
  {
    if file[from] != NEWLINE {
      EndGrows(file, more, from + 1);
    }
  }

  /** A pass over a grown file is the old pass followed by one from its stop. */
  lemma {:induction false} PassGrows(file: seq<Byte>, more: seq<Byte>, from: nat)
    ensures Ends(file + more, from) == Ends(file, from) + Ends(file + more, Stop(file, from))
    ensures Stop(file + more, from) == Stop(file + more, Stop(file, from))
    decreases |file| - from
  {
    var end := LineEnd(file, from);
    if end != 0 {
      EndGrows(file, more, from);
      PassGrows(file, more, end);
    }
  }

  function LastEnd(from: nat, ends: seq<nat>): nat {
    if ends == [] then from else ends[|ends| - 1]
  }

  lemma {:induction false} FitsAppend(from: nat, a: seq<nat>, b: seq<nat>, length: nat)
    requires Fits(from, a, length) && Fits(LastEnd(from, a), b, length)
    ensures Fits(from, a + b, length)
    decreases |a|
  {
    if a == [] {
      assert a + b == b;
    } else {
      assert (a + b)[1..] == a[1..] + b;
      FitsAppend(a[0], a[1..], b, length);
    }
  }

  lemma {:induction false} DecodeAppend<E>(
    parse: seq<Byte> -> Option<E>, file: seq<Byte>, from: nat, a: seq<nat>, b: seq<nat>)
    requires Fits(from, a, |file|) && Fits(LastEnd(from, a), b, |file|) && Fits(from, a + b, |file|)
    ensures Decode(parse, file, from, a + b)
      == Decode(parse, file, from, a) + Decode(parse, file, LastEnd(from, a), b)
    decreases |a|
  {
    if a == [] {
      assert a + b == b;
    } else {
      var ab := a + b;
      assert ab[1..] == a[1..] + b && ab[0] == a[0];
      DecodeAppend(parse, file, a[0], a[1..], b);
      assert Decode(parse, file, from, ab)
        == Decoded(parse, file[from..a[0]], a[0]) + Decode(parse, file, a[0], ab[1..]);
    }
  }

  lemma {:induction false} DecodeGrows<E>(
    parse: seq<Byte> -> Option<E>, file: seq<Byte>, more: seq<Byte>, from: nat, ends: seq<nat>)
    requires Fits(from, ends, |file|) && Fits(from, ends, |file + more|)
    ensures Decode(parse, file + more, from, ends) == Decode(parse, file, from, ends)
    decreases |ends|
  {
    if ends != [] {
      assert (file + more)[from..ends[0]] == file[from..ends[0]];
      DecodeGrows(parse, file, more, ends[0], ends[1..]);
    }
  }

  lemma {:induction false} FitsGrows(from: nat, ends: seq<nat>, length: nat, longer: nat)
    requires Fits(from, ends, length) && length <= longer
    ensures Fits(from, ends, longer)
    decreases |ends|
  {
    if ends != [] {
      FitsGrows(ends[0], ends[1..], length, longer);
    }
  }

  lemma {:induction false} StopIsLastEnd(file: seq<Byte>, from: nat)
    ensures Stop(file, from) == LastEnd(from, Ends(file, from))
    decreases |file| - from
  {
    var end := LineEnd(file, from);
    if end != 0 {
      StopIsLastEnd(file, end);
    }
  }

  /** The events of a grown file: the old ones, then those past the old stop. */
  lemma {:induction false} EventsGrow<E>(parse: seq<Byte> -> Option<E>, file: seq<Byte>, more: seq<Byte>, from: nat)
    ensures Events(parse, file + more, from)
      == Events(parse, file, from) + Events(parse, file + more, Stop(file, from))
    ensures Stop(file + more, from) == Stop(file + more, Stop(file, from))
  {
    var seen, rest := Ends(file, from), Ends(file + more, Stop(file, from));
    PassGrows(file, more, from);
    StopIsLastEnd(file, from);
    EndsFit(file, from);
    EndsFit(file + more, Stop(file, from));
    FitsGrows(from, seen, |file|, |file + more|);
    FitsAppend(from, seen, rest, |file + more|);
    DecodeAppend(parse, file + more, from, seen, rest);
    DecodeGrows(parse, file, more, from, seen);
  }

  lemma {:induction false} Regroup<T>(a: seq<T>, b: seq<T>, c: seq<T>)
    ensures a + (b + c) == a + b + c
  {
  }

  class StreamReader<E> {
    const parse: seq<Byte> -> Option<E>
    var offset: nat

    constructor (parse: seq<Byte> -> Option<E>, offset: int)
      ensures this.parse == parse && this.offset == if offset < 0 then 0 else offset
    {
      this.parse := parse;
      this.offset := if offset < 0 then 0 else offset;
    }

    /** One poll of the file as it is now. */
    method ReadNew(file: seq<Byte>) returns (events: seq<Event<E>>)
      modifies this`offset
      ensures events == Events(parse, file, old(offset))
      ensures offset == Stop(file, old(offset))
    {
      events := [];
      while true
        invariant Stop(file, offset) == Stop(file, old(offset))
        invariant events + Events(parse, file, offset) == Events(parse, file, old(offset))
        decreases |file| - offset
      {
        var end := LineEnd(file, offset);
        if end == 0 {
          break;
        }
        var raw := file[offset..end];
        NextEvent(parse, file, offset);
        Regroup(events, Decoded(parse, raw, end), Events(parse, file, end));
        offset := end;
        events := events + Decoded(parse, raw, offset);
      }
    }
  }

  lemma {:induction false} NextEvent<E>(parse: seq<Byte> -> Option<E>, file: seq<Byte>, from: nat)
    requires LineEnd(file, from) != 0
    ensures
      var end := LineEnd(file, from);
      Events(parse, file, from) == Decoded(parse, file[from..end], end) + Events(parse, file, end)
  {
  }

  /** The events of a reader that polls the file at each of these contents. */
  function Polls<E>(parse: seq<Byte> -> Option<E>, files: seq<seq<Byte>>, from: nat): seq<Event<E>> {
    if files == [] then []
    else Events(parse, files[0], from) + Polls(parse, files[1..], Stop(files[0], from))
  }

  function PollsStop(files: seq<seq<Byte>>, from: nat): nat {
    if files == [] then from else PollsStop(files[1..], Stop(files[0], from))
  }

  predicate Growing(files: seq<seq<Byte>>) {
    forall i :: 0 <= i < |files| - 1 ==> files[i] <= files[i + 1]
  }

  lemma {:induction false} GrowsToLast(files: seq<seq<Byte>>)
    requires files != [] && Growing(files)
    ensures files[0] <= files[|files| - 1]
  {
    if |files| > 1 {
      GrowsToLast(files[1..]);
      assert files[0] <= files[1];
    }
  }

  /** However the file grows and whenever it is polled, the polls together read
      exactly what one pass over the final file reads. */
  lemma {:induction false} PollsAreOnePass<E>(parse: seq<Byte> -> Option<E>, files: seq<seq<Byte>>, from: nat)
    requires files != [] && Growing(files)
    ensures Polls(parse, files, from) == Events(parse, files[|files| - 1], from)
    ensures PollsStop(files, from) == Stop(files[|files| - 1], from)
  {
    var rest, last, stop := files[1..], files[|files| - 1], Stop(files[0], from);
    if rest == [] {
      assert Polls(parse, rest, stop) == [] && PollsStop(rest, stop) == stop;
    } else {
      PollsAreOnePass(parse, rest, stop);
      assert rest[|rest| - 1] == last;
      GrowsToLast(files);
      var more := last[|files[0]|..];
      assert last == files[0] + more;
      EventsGrow(parse, files[0], more, from);
    }
  }

  /** The line that the k-th event of some lines was decoded from. */
  lemma {:induction false} SourceLine<E>(
    parse: seq<Byte> -> Option<E>, file: seq<Byte>, from: nat, k: nat) returns (at: nat)
    requires k < |Events(parse, file, from)|
    ensures at == Events(parse, file, from)[k].offset
    ensures Events(parse, file, at) == Events(parse, file, from)[k + 1..]
    decreases |file| - from
  {
    NextEvent(parse, file, from);
    var end := LineEnd(file, from);
    var all, rest := Events(parse, file, from), Events(parse, file, end);
    if parse(file[from..end]).None? {
      at := SourceLine(parse, file, end, k);
    } else if k == 0 {
      at := end;
      assert all[1..] == rest;
    } else {
      at := SourceLine(parse, file, end, k - 1);
      assert all[k + 1..] == rest[k..];
    }
  }

  /** Resuming at the offset of any event yields exactly the events after it. */
  lemma {:induction false} ResumeIsExact<E>(parse: seq<Byte> -> Option<E>, file: seq<Byte>, from: nat, k: nat)
    requires k < |Events(parse, file, from)|
    ensures Events(parse, file, Events(parse, file, from)[k].offset) == Events(parse, file, from)[k + 1..]
  {
    var at := SourceLine(parse, file, from, k);
  }

  // ---- the file as its writer sees it ----

  /** The lines appended so far, each with its newline. */
  function Text(lines: seq<seq<Byte>>): seq<Byte> {
    if lines == [] then [] else lines[0] + [NEWLINE] + Text(lines[1..])
  }

  /** What those lines should yield when the first one starts at this offset. */
  function Written<E>(parse: seq<Byte> -> Option<E>, lines: seq<seq<Byte>>, at: nat): seq<Event<E>> {
    if lines == [] then []
    else
      var raw := lines[0] + [NEWLINE];
      Decoded(parse, raw, at + |raw|) + Written(parse, lines[1..], at + |raw|)
  }

  lemma {:induction false} EndAt(file: seq<Byte>, from: nat, end: nat)
    requires from < end <= |file| && file[end - 1] == NEWLINE
    requires forall i :: from <= i < end - 1 ==> file[i] != NEWLINE
    ensures LineEnd(file, from) == end
    decreases end - from
  {
    if from + 1 < end {
      EndAt(file, from + 1, end);
    }
  }

  lemma {:induction false} NoEnd(file: seq<Byte>, from: nat)
    requires forall i :: from <= i < |file| ==> file[i] != NEWLINE
    ensures LineEnd(file, from) == 0
    decreases |file| - from
  {
    if from < |file| {
      NoEnd(file, from + 1);
    }
  }

  lemma {:induction false} LineOf(before: seq<Byte>, line: seq<Byte>, after: seq<Byte>, file: seq<Byte>)
    requires NEWLINE !in line && file == before + line + [NEWLINE] + after
    ensures LineEnd(file, |before|) == |before| + |line| + 1
    ensures file[|before|..|before| + |line| + 1] == line + [NEWLINE]
  {
    assert forall i :: |before| <= i < |before| + |line| ==> file[i] == line[i - |before|];
    EndAt(file, |before|, |before| + |line| + 1);
  }

  lemma {:induction false} FirstLine(before: seq<Byte>, lines: seq<seq<Byte>>, tail: seq<Byte>, file: seq<Byte>)
    requires lines != [] && NEWLINE !in lines[0]
    requires file == before + Text(lines) + tail
    ensures file == before + lines[0] + [NEWLINE] + Text(lines[1..]) + tail
    ensures LineEnd(file, |before|) == |before + lines[0] + [NEWLINE]|
    ensures file[|before|..LineEnd(file, |before|)] == lines[0] + [NEWLINE]
  {
    var line, rest := lines[0], Text(lines[1..]);
    assert file == before + line + [NEWLINE] + (rest + tail);
    LineOf(before, line, rest + tail, file);
  }

  lemma {:induction false} ReadFirstLine<E>(
    parse: seq<Byte> -> Option<E>, before: seq<Byte>, lines: seq<seq<Byte>>, tail: seq<Byte>, file: seq<Byte>)
    requires lines != [] && NEWLINE !in lines[0] && file == before + Text(lines) + tail
    ensures
      var raw := lines[0] + [NEWLINE];
      Events(parse, file, |before|) ==
      Decoded(parse, raw, |before| + |raw|) + Events(parse, file, |before| + |raw|)
    ensures file == before + lines[0] + [NEWLINE] + Text(lines[1..]) + tail
  {
    FirstLine(before, lines, tail, file);
    NextEvent(parse, file, |before|);
  }

  /** Reading inverts writing: from the end of what came before, the reader
      yields one event for each appended line that parses, in order, with the
      byte offset of the end of its line, and nothing for a partial last line. */
  lemma {:induction false} ReadingInvertsWriting<E>(
    parse: seq<Byte> -> Option<E>, before: seq<Byte>, lines: seq<seq<Byte>>, tail: seq<Byte>, file: seq<Byte>)
    requires forall i :: 0 <= i < |lines| ==> NEWLINE !in lines[i]
    requires NEWLINE !in tail
    requires file == before + Text(lines) + tail
    ensures Events(parse, file, |before|) == Written(parse, lines, |before|)
    decreases |lines|
  {
    if lines == [] {
      assert file == before + tail;
      NoEnd(file, |before|);
      assert Ends(file, |before|) == [];
    } else {
      ReadFirstLine(parse, before, lines, tail, file);
      ReadingInvertsWriting(parse, before + lines[0] + [NEWLINE], lines[1..], tail, file);
    }
  }

  // ---- writing ----

  datatype Frame =
    | Delta(text: string)
    | Message(text: string, streaming: bool, appended: bool)
    | Final(text: string)

  const UPSERT_MIN_INTERVAL := 0.1
  const UPSERT_MIN_BYTES := 512

  /** What a client shows that starts from a text and receives these frames. */
  function View(start: string, frames: seq<Frame>): string
    decreases |frames|
  {
    if frames == [] then start
    else
      match frames[0]
      case Delta(text) => View(start + text, frames[1..])
      case Message(text, _, _) => View(text, frames[1..])
      case Final(_) => View(start, frames[1..])
  }

  function Deltas(frames: seq<Frame>): string {
    if frames == [] then ""
    else (if frames[0].Delta? then frames[0].text else "") + Deltas(frames[1..])
  }

  predicate HasMessage(frames: seq<Frame>) {
    exists i :: 0 <= i < |frames| && frames[i].Message?
  }

  predicate Open(frames: seq<Frame>) {
    forall i :: 0 <= i < |frames| ==> frames[i].Delta? || (frames[i].Message? && frames[i].streaming)
  }

  /** Characters shown only by deltas since the last full frame. */
  function Lag(frames: seq<Frame>): nat {
    if frames == [] then 0
    else
      var last := frames[|frames| - 1];
      if last.Delta? then Lag(frames[..|frames| - 1]) + |last.text| else 0
  }

  lemma {:induction false} ViewAppend(start: string, a: seq<Frame>, b: seq<Frame>)
    ensures View(start, a + b) == View(View(start, a), b)
    decreases |a|
  {
    if a == [] {
      assert a + b == b;
    } else {
      assert (a + b)[1..] == a[1..] + b;
      var next := match a[0] case Delta(text) => start + text case Message(text, _, _) => text case Final(_) => start;
      ViewAppend(next, a[1..], b);
    }
  }

  lemma {:induction false} DeltasAppend(a: seq<Frame>, b: seq<Frame>)
    ensures Deltas(a + b) == Deltas(a) + Deltas(b)
    decreases |a|
  {
    if a == [] {
      assert a + b == b;
    } else {
      assert (a + b)[1..] == a[1..] + b;
      DeltasAppend(a[1..], b);
    }
  }

  /** Every streaming frame carries the whole text so far and only the first
      message frame is an insert. */
  ghost predicate Faithful(frames: seq<Frame>) {
    forall i {:trigger frames[i]} :: 0 <= i < |frames| && frames[i].Message? ==>
      && (frames[i].streaming ==> frames[i].text == View("", frames[..i]))
      && (frames[i].appended <==> !HasMessage(frames[..i]))
  }

  lemma {:induction false} FaithfulExtends(frames: seq<Frame>, f: Frame)
    requires Faithful(frames)
    requires f.Message? ==>
      && (f.streaming ==> f.text == View("", frames))
      && (f.appended <==> !HasMessage(frames))
    ensures Faithful(frames + [f])
  {
    var all := frames + [f];
    forall i | 0 <= i < |all| && all[i].Message?
      ensures all[i].streaming ==> all[i].text == View("", all[..i])
      ensures all[i].appended <==> !HasMessage(all[..i])
    {
      if i < |frames| {
        assert all[..i] == frames[..i];
      } else {
        assert all[..i] == frames;
      }
    }
  }

  /** What a chunk puts in the stream: itself, and the whole text when that is due. */
  function Emitted(text: string, due: bool, whole: string, insert: bool): seq<Frame> {
    if text == "" then []
    else if due then [Delta(text), Message(whole, true, insert)]
    else [Delta(text)]
  }

  lemma ViewOne(start: string, text: string)
    ensures View(start, [Frame.Delta(text)]) == start + text
  {
    assert View(start + text, [Frame.Delta(text)][1..]) == start + text;
  }

  lemma EmittedBoth(was: seq<Frame>, text: string, whole: string, insert: bool)
    ensures was + [Frame.Delta(text)] + [Message(whole, true, insert)]
      == was + [Frame.Delta(text), Message(whole, true, insert)]
  {
  }

  class StreamWriter {
    var accum: string
    var upserted: bool
    var lastUpsert: real
    var sinceUpsert: nat
    var frames: seq<Frame>

    ghost predicate Valid()
      reads this
    {
      && accum == View("", frames)
      && Faithful(frames)
      && (upserted <==> HasMessage(frames))
      && (Open(frames) ==> accum == Deltas(frames) && sinceUpsert == Lag(frames) < UPSERT_MIN_BYTES)
    }

    constructor ()
      ensures Valid() && frames == []
    {
      accum, upserted, lastUpsert, sinceUpsert, frames := "", false, 0.0, 0, [];
    }

    method Emit(f: Frame)
      requires Faithful(frames)
      requires f.Message? ==>
        && (f.streaming ==> f.text == View("", frames))
        && (f.appended <==> !HasMessage(frames))
      modifies this`frames
      ensures frames == old(frames) + [f] && Faithful(frames)
      ensures View("", frames) == View(View("", old(frames)), [f])
      ensures HasMessage(frames) <==> HasMessage(old(frames)) || f.Message?
      ensures Deltas(frames) == Deltas(old(frames)) + (if f.Delta? then f.text else "")
      ensures Open(frames) <==> Open(old(frames)) && (f.Delta? || (f.Message? && f.streaming))
      ensures Lag(frames) == if f.Delta? then Lag(old(frames)) + |f.text| else 0
    {
      FaithfulExtends(frames, f);
      ViewAppend("", frames, [f]);
      DeltasAppend(frames, [f]);
      assert Deltas([f]) == if f.Delta? then f.text else "";
      ghost var was := frames;
      frames := frames + [f];
      assert frames[..|was|] == was && frames[|was|] == f;
    }

    method EmitMessage(streaming: bool)
      requires Faithful(frames) && (upserted <==> HasMessage(frames))
      requires streaming ==> accum == View("", frames)
      modifies this`upserted, this`frames
      ensures frames == old(frames) + [Message(accum, streaming, !old(upserted))]
      ensures Faithful(frames) && upserted && HasMessage(frames)
      ensures View("", frames) == accum && Lag(frames) == 0
      ensures Deltas(frames) == Deltas(old(frames))
      ensures Open(frames) <==> Open(old(frames)) && streaming
    {
      Emit(Message(accum, streaming, !upserted));
      upserted := true;
    }

    /** The whole text so far, as a full frame. */
    method Refresh(now: real)
      requires accum == View("", frames) && Faithful(frames) && (upserted <==> HasMessage(frames))
      requires Open(frames) ==> accum == Deltas(frames)
      modifies this`lastUpsert, this`sinceUpsert, this`upserted, this`frames
      ensures Valid() && lastUpsert == now && sinceUpsert == 0 && HasMessage(frames)
      ensures frames == old(frames) + [Message(accum, true, !old(upserted))]
      ensures Deltas(frames) == Deltas(old(frames)) && (Open(frames) <==> Open(old(frames)))
    {
      lastUpsert := now;
      sinceUpsert := 0;
      EmitMessage(true);
    }

    method Chunk(text: string)
      requires Valid()
      modifies this`accum, this`sinceUpsert, this`frames
      ensures accum == View("", frames) && Faithful(frames) && (upserted <==> HasMessage(frames))
      ensures accum == old(accum) + text && sinceUpsert == old(sinceUpsert) + |text|
      ensures frames == old(frames) + [Frame.Delta(text)]
      ensures HasMessage(frames) <==> HasMessage(old(frames))
      ensures Deltas(frames) == Deltas(old(frames)) + text && (Open(frames) <==> Open(old(frames)))
      ensures Open(frames) ==> accum == Deltas(frames) && sinceUpsert == Lag(frames)
    {
      ViewOne(accum, text);
      Emit(Frame.Delta(text));
      accum := accum + text;
      sinceUpsert := sinceUpsert + |text|;
    }

    /** A chunk of the reply: always as a delta, and as a full frame when it is
        the first, when the last one is old, or when much has come since. */
    method Delta(text: string, now: real)
      requires Valid()
      modifies this
      ensures Valid() && accum == old(accum) + text
      ensures Deltas(frames) == Deltas(old(frames)) + text
      ensures Open(frames) <==> Open(old(frames))
      ensures text != "" ==> HasMessage(frames)
      ensures
        var due := text != "" &&
          (!old(upserted) || now - old(lastUpsert) >= 0.1 || old(sinceUpsert) + |text| >= 512);
        lastUpsert == (if due then now else old(lastUpsert)) &&
        sinceUpsert == (if due then 0 else old(sinceUpsert) + |text|) &&
        frames == old(frames) + Emitted(text, due, accum, !old(upserted))
    {
      if text != "" {
        ghost var was, insert := frames, !upserted;
        Chunk(text);
        if !upserted || now - lastUpsert >= UPSERT_MIN_INTERVAL || sinceUpsert >= UPSERT_MIN_BYTES {
          Refresh(now);
          EmittedBoth(was, text, accum, insert);
        }
      }
    }

    /** Closes the message with the authoritative text. */
    method Final(text: string)
      requires Valid()
      modifies this
      ensures Valid()
      ensures frames == old(frames) + [Message(text, false, !old(upserted)), Frame.Final(text)]
      ensures View("", frames) == text
    {
      accum := text;
      EmitMessage(false);
      Emit(Frame.Final(text));
    }
  }

  lemma {:induction false} OpenViewIsDeltas(frames: seq<Frame>)
    requires Open(frames) && Faithful(frames)
    ensures View("", frames) == Deltas(frames)
    decreases |frames|
  {
    if frames != [] {
      var n := |frames| - 1;
      var front, f := frames[..n], frames[n];
      assert frames == front + [f];
      assert forall i :: 0 <= i < n ==> front[..i] == frames[..i];
      OpenViewIsDeltas(front);
      ViewAppend("", front, [f]);
      DeltasAppend(front, [f]);
    }
  }

  /** Until the reply is closed, each full frame's text is the concatenation of
      all the deltas emitted before it. */
  lemma {:induction false} FullFrameIsAllDeltas(frames: seq<Frame>, i: nat)
    requires Faithful(frames) && i < |frames| && Open(frames[..i])
    requires frames[i].Message? && frames[i].streaming
    ensures frames[i].text == Deltas(frames[..i])
  {
    var front := frames[..i];
    assert forall k :: 0 <= k < i ==> front[..k] == frames[..k];
    OpenViewIsDeltas(front);
  }

  /** A client that lost any frames before a full frame shows, after that frame,
      the same text as one that saw every frame. */
  lemma {:induction false} LostFramesHeal(frames: seq<Frame>, i: nat, stale: string)
    requires i < |frames| && frames[i].Message?
    ensures View(stale, frames[i..]) == View("", frames)
  {
    assert frames == frames[..i] + frames[i..];
    ViewAppend("", frames[..i], frames[i..]);
  }
}
