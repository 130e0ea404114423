/**
  Acknowledgement obligations (agent/obligations.py): one open obligation per
  bot, redriven by a bounded number of recovery prompts.  The clock is an input
  that never runs backwards; whether a user chat is queued is an input too.
*/
module Obligations {
  import opened Prelude

  const MAX_REDRIVES := 3
  const MAX_IDS := 20

  type Id = int
  type Time = real

  datatype Record = Record(
    ids: seq<Id>,
    coalesced: nat,
    redrives: nat,
    lastSend: Time,
    lastRedrive: Option<Time>)

  /** A recovery prompt put in the inbox, and the obligation it was for. */
  datatype Prompt = Prompt(time: Time, obligation: nat)

  /** latest numbers the obligations; idle is the fixed idle window. */
  datatype State = State(record: Option<Record>, prompts: seq<Prompt>, latest: nat, clock: Time, idle: Time)

  datatype Event =
    | Accept(id: Id, now: Time)
    | Reply(source: Option<Id>, userPending: bool, now: Time)
    | Poll(userPending: bool, now: Time)

  function LastIds(ids: seq<Id>): seq<Id> {
    if |ids| > MAX_IDS then ids[|ids| - MAX_IDS..] else ids
  }

  function Coalesce(r: Record, id: Id, now: Time): Record {
    var ids := if id in r.ids then r.ids else r.ids + [id];
    r.(ids := LastIds(ids), coalesced := r.coalesced + 1, lastSend := now)
  }

  /** The last accept, reply or prompt: the idle window counts from here. */
  function Reference(r: Record): Time {
    var redrive := if r.lastRedrive.Some? then r.lastRedrive.value else 0.0;
    if r.lastSend < redrive then redrive else r.lastSend
  }

  /** A poll that does something. */
  predicate Eligible(s: State, e: Event) {
    && e.Poll? && !e.userPending && s.record.Some?
    && e.now - Reference(s.record.value) >= s.idle
  }

  function OnAccept(s: State, id: Id, now: Time): State {
    match s.record
    case None => s.(record := Some(Record([id], 1, 0, now, None)), latest := s.latest + 1, clock := now)
    case Some(r) => s.(record := Some(Coalesce(r, id, now)), clock := now)
  }

  function OnReply(s: State, source: Option<Id>, userPending: bool, now: Time): State {
    match s.record
    case None => s.(clock := now)
    case Some(r) =>
      if source.Some? && source.value !in r.ids then s.(clock := now)
      else if userPending then s.(record := Some(r.(lastSend := now)), clock := now)
      else s.(record := None, clock := now)
  }

  function OnPoll(s: State, e: Event): State
    requires e.Poll?
  {
    if !Eligible(s, e) then s.(clock := e.now)
    else if s.record.value.redrives >= MAX_REDRIVES then s.(record := None, clock := e.now)
    else
      var r := s.record.value;
      s.(record := Some(r.(redrives := r.redrives + 1, lastRedrive := Some(e.now))),
         prompts := s.prompts + [Prompt(e.now, s.latest)],
         clock := e.now)
  }

  function Step(s: State, e: Event): State {
    match e
    case Accept(id, now) => OnAccept(s, id, now)
    case Reply(source, userPending, now) => OnReply(s, source, userPending, now)
    case Poll(_, _) => OnPoll(s, e)
  }

  function Run(s: State, es: seq<Event>): State
    decreases |es|
  {
    if es == [] then s else Run(Step(s, es[0]), es[1..])
  }

  predicate Monotone(clock: Time, es: seq<Event>)
    decreases |es|
  {
    es != [] ==> clock <= es[0].now && Monotone(es[0].now, es[1..])
  }

  function PromptsFor(prompts: seq<Prompt>, obligation: nat): nat {
    if prompts == [] then 0
    else
      PromptsFor(prompts[..|prompts| - 1], obligation)
      + (if prompts[|prompts| - 1].obligation == obligation then 1 else 0)
  }

  /** In order, and neighbours at least the idle window apart, which may be negative. */
  ghost predicate Spaced(prompts: seq<Prompt>, idle: Time) {
    forall i :: 0 < i < |prompts| ==>
      prompts[i - 1].time <= prompts[i].time && prompts[i].time - prompts[i - 1].time >= idle
  }

  ghost predicate Inv(s: State) {
    && (forall n :: PromptsFor(s.prompts, n) <= MAX_REDRIVES)
    && (forall n :: n > s.latest ==> PromptsFor(s.prompts, n) == 0)
    && Spaced(s.prompts, s.idle)
    && (s.prompts != [] ==> s.prompts[|s.prompts| - 1].time <= s.clock)
    && (s.record.Some? ==>
          var r := s.record.value;
          && r.redrives == PromptsFor(s.prompts, s.latest)
          && (s.prompts != [] ==>
                s.prompts[|s.prompts| - 1].time <= r.lastSend
                || (r.lastRedrive.Some? && s.prompts[|s.prompts| - 1].time == r.lastRedrive.value)))
  }

  lemma {:induction false} PromptAdds(prompts: seq<Prompt>, p: Prompt, n: nat)
    ensures PromptsFor(prompts + [p], n) == PromptsFor(prompts, n) + if p.obligation == n then 1 else 0
  {
    assert (prompts + [p])[..|prompts|] == prompts;
  }

  lemma {:induction false} StepKeeps(s: State, e: Event)
    requires Inv(s) && s.clock <= e.now
    ensures Inv(Step(s, e)) && Step(s, e).clock == e.now && Step(s, e).idle == s.idle
  {
    if e.Poll? {
      PollKeeps(s, e);
    }
  }

  lemma {:induction false} SpacedAppend(prompts: seq<Prompt>, p: Prompt, idle: Time)
    requires Spaced(prompts, idle)
    requires prompts != [] ==> Max0(idle) <= p.time - prompts[|prompts| - 1].time
    ensures Spaced(prompts + [p], idle)
  {
  }

  function Max0(t: Time): Time {
    if t < 0.0 then 0.0 else t
  }

  lemma {:induction false} PollKeeps(s: State, e: Event)
    requires Inv(s) && s.clock <= e.now && e.Poll?
    ensures Inv(OnPoll(s, e))
  {
    if Eligible(s, e) && s.record.value.redrives < MAX_REDRIVES {
      var p := Prompt(e.now, s.latest);
      forall n: nat {
        PromptAdds(s.prompts, p, n);
      }
      SpacedAppend(s.prompts, p, s.idle);
    }
  }

  lemma {:induction false} RunKeeps(s: State, es: seq<Event>)
    requires Inv(s) && Monotone(s.clock, es)
    ensures Inv(Run(s, es)) && Run(s, es).idle == s.idle
    decreases |es|
  {
    if es != [] {
      StepKeeps(s, es[0]);
      RunKeeps(Step(s, es[0]), es[1..]);
    }
  }

  function Start(clock: Time, idle: Time): State {
    State(None, [], 0, clock, idle)
  }

  /** Whatever is accepted, answered and polled: at most three prompts for one
      obligation, and any two prompts at least the idle window apart. */
  lemma {:induction false} RedriveIsBounded(clock: Time, idle: Time, es: seq<Event>, n: nat, i: nat, k: nat)
    requires Monotone(clock, es)
    ensures
      var prompts := Run(Start(clock, idle), es).prompts;
      && PromptsFor(prompts, n) <= MAX_REDRIVES
      && (i < k < |prompts| ==> prompts[k].time - prompts[i].time >= idle)
  {
    var s := Run(Start(clock, idle), es);
    RunKeeps(Start(clock, idle), es);
    if i < k < |s.prompts| {
      FarApart(s.prompts, idle, i, k);
    }
  }

  lemma {:induction false} FarApart(prompts: seq<Prompt>, idle: Time, i: nat, k: nat)
    requires Spaced(prompts, idle) && i < k < |prompts|
    ensures prompts[k].time - prompts[i].time >= idle
    decreases k - i
  {
    if i + 1 < k {
      FarApart(prompts, idle, i, k - 1);
    }
  }

  /** Prompts appear only on polls that find no user chat queued. */
  lemma {:induction false} QuietWhileUserWaits(s: State, es: seq<Event>)
    requires forall i :: 0 <= i < |es| ==> es[i].Poll? ==> es[i].userPending
    ensures Run(s, es).prompts == s.prompts
    decreases |es|
  {
    if es != [] {
      assert es[0].Poll? ==> es[0].userPending;
      assert forall i :: 0 <= i < |es[1..]| ==> es[1..][i] == es[i + 1];
      QuietWhileUserWaits(Step(s, es[0]), es[1..]);
    }
  }

  /** It was accepted, or replied to while the user has more queued. */
  predicate KeepsOpen(s: State, e: Event) {
    e.Accept? ||
    (e.Reply? && s.record.Some? && e.userPending && (e.source.Some? ==> e.source.value in s.record.value.ids))
  }

  /** Every accept and every reply that leaves the obligation open restarts its clock: no poll within
      the idle window does anything. */
  lemma {:induction false} QuietAfterActivity(s: State, e: Event, es: seq<Event>)
    requires KeepsOpen(s, e) && forall i :: 0 <= i < |es| ==> es[i].Poll? && es[i].now - e.now < s.idle
    ensures Step(s, e).record.Some?
    ensures Run(Step(s, e), es).prompts == s.prompts && Run(Step(s, e), es).record == Step(s, e).record
  {
    QuietPolls(Step(s, e), es);
  }

  lemma {:induction false} QuietPolls(s: State, es: seq<Event>)
    requires s.record.Some?
    requires forall i :: 0 <= i < |es| ==> es[i].Poll? && es[i].now - s.record.value.lastSend < s.idle
    ensures Run(s, es).prompts == s.prompts && Run(s, es).record == s.record
    decreases |es|
  {
    if es != [] {
      assert es[0].Poll?;
      assert forall i :: 0 <= i < |es[1..]| ==> es[1..][i] == es[i + 1];
      QuietPolls(Step(s, es[0]), es[1..]);
    }
  }

  /** How many of these events were polls that did something. */
  function EligiblePolls(s: State, es: seq<Event>): nat
    decreases |es|
  {
    if es == [] then 0
    else (if Eligible(s, es[0]) then 1 else 0) + EligiblePolls(Step(s, es[0]), es[1..])
  }

  lemma {:induction false} ClosedStaysClosed(s: State, es: seq<Event>)
    requires s.record.None? && forall i :: 0 <= i < |es| ==> es[i].Poll?
    ensures Run(s, es).record.None? && Run(s, es).prompts == s.prompts && EligiblePolls(s, es) == 0
    decreases |es|
  {
    if es != [] {
      assert es[0].Poll?;
      assert forall i :: 0 <= i < |es[1..]| ==> es[1..][i] == es[i + 1];
      ClosedStaysClosed(Step(s, es[0]), es[1..]);
    }
  }

  /** With no further accepts and replies, an obligation is dropped exactly when
      the polls that found it overdue use up the redrives it has left and one
      more; until then each of them has sent one prompt. */
  lemma {:induction false} DroppedExactlyAfterRedrives(s: State, es: seq<Event>)
    requires s.record.Some? && s.record.value.redrives <= MAX_REDRIVES
    requires forall i :: 0 <= i < |es| ==> es[i].Poll?
    ensures
      var left := MAX_REDRIVES - s.record.value.redrives;
      && (Run(s, es).record.None? <==> EligiblePolls(s, es) > left)
      && EligiblePolls(s, es) <= left + 1
      && |Run(s, es).prompts| == |s.prompts| + Min(EligiblePolls(s, es), left)
    decreases |es|
  {
    if es != [] {
      assert es[0].Poll?;
      assert forall i :: 0 <= i < |es[1..]| ==> es[1..][i] == es[i + 1];
      var t := Step(s, es[0]);
      if t.record.Some? {
        DroppedExactlyAfterRedrives(t, es[1..]);
      } else {
        ClosedStaysClosed(t, es[1..]);
      }
    }
  }

  lemma {:induction false} RunLast(s: State, es: seq<Event>, e: Event)
    ensures Run(s, es + [e]) == Step(Run(s, es), e)
    decreases |es|
  {
    if es != [] {
      assert (es + [e])[1..] == es[1..] + [e];
      RunLast(Step(s, es[0]), es[1..], e);
    } else {
      assert es + [e] == [e];
      assert Run(Step(s, e), [e][1..]) == Step(s, e);
    }
  }

  predicate NoDup(ids: seq<Id>) {
    forall i, k :: 0 <= i < k < |ids| ==> ids[i] != ids[k]
  }

  /** The messages accepted by these events. */
  function Accepted(es: seq<Event>): seq<Id> {
    if es == [] then [] else (if es[0].Accept? then [es[0].id] else []) + Accepted(es[1..])
  }

  /** The messages accepted since the open obligation began, in order; none while none is open. */
  function Owed(s: State, owed: seq<Id>, es: seq<Event>): seq<Id>
    decreases |es|
  {
    if es == [] then owed else Owed(Step(s, es[0]), OwedNext(s, owed, es[0]), es[1..])
  }

  function OwedNext(s: State, owed: seq<Id>, e: Event): seq<Id> {
    if Step(s, e).record.None? then [] else if e.Accept? then owed + [e.id] else owed
  }

  ghost predicate Remembers(s: State, owed: seq<Id>) {
    if s.record.None? then owed == [] else s.record.value.ids == LastIds(owed)
  }

  lemma {:induction false} RememberOne(r: Record, front: seq<Id>, id: Id, now: Time)
    requires r.ids == LastIds(front) && id !in front
    ensures Coalesce(r, id, now).ids == LastIds(front + [id])
  {
    assert forall x :: x in LastIds(front) ==> x in front;
  }

  lemma {:induction false} RemembersStep(s: State, owed: seq<Id>, e: Event)
    requires Remembers(s, owed) && (e.Accept? ==> e.id !in owed)
    ensures Remembers(Step(s, e), OwedNext(s, owed, e))
  {
    if e.Accept? {
      if s.record.Some? {
        RememberOne(s.record.value, owed, e.id, e.now);
      } else {
        assert [] + [e.id] == [e.id];
      }
    }
  }

  /** No message is accepted twice, nor again after it was owed. */
  ghost predicate NewIds(owed: seq<Id>, es: seq<Event>) {
    NoDup(Accepted(es)) && forall x :: x in Accepted(es) ==> x !in owed
  }

  lemma {:induction false} NewIdsNext(s: State, owed: seq<Id>, es: seq<Event>)
    requires es != [] && NewIds(owed, es)
    ensures es[0].Accept? ==> es[0].id !in owed
    ensures NewIds(OwedNext(s, owed, es[0]), es[1..])
  {
    var all, rest := Accepted(es), Accepted(es[1..]);
    if es[0].Accept? {
      assert all == [es[0].id] + rest && all[0] in all;
      assert forall i :: 0 <= i < |rest| ==> rest[i] == all[i + 1];
    } else {
      assert all == rest;
    }
    assert forall x :: x in rest ==> x in all;
  }

  lemma {:induction false} RunRemembers(s: State, owed: seq<Id>, es: seq<Event>)
    requires Remembers(s, owed) && NewIds(owed, es)
    ensures Remembers(Run(s, es), Owed(s, owed, es))
    decreases |es|
  {
    if es != [] {
      NewIdsNext(s, owed, es);
      RemembersStep(s, owed, es[0]);
      RunRemembers(Step(s, es[0]), OwedNext(s, owed, es[0]), es[1..]);
    }
  }

  /** After any accepts, replies and polls, a reply to a message, with the queue empty, closes the
      open obligation exactly when that message is among the last twenty accepted since it began. */
  lemma {:induction false} ReplyClosesIffRemembered(s: State, es: seq<Event>, id: Id, now: Time)
    requires s.record.None? && NoDup(Accepted(es)) && Run(s, es).record.Some?
    ensures Run(s, es + [Reply(Some(id), false, now)]).record.None? <==> id in LastIds(Owed(s, [], es))
  {
    RunRemembers(s, [], es);
    RunLast(s, es, Reply(Some(id), false, now));
  }

  /** One accept for each id from 0 on, all at one time. */
  function Accepts(n: nat, now: Time): (es: seq<Event>)
    ensures |es| == n && forall i :: 0 <= i < n ==> es[i] == Accept(i, now)
  {
    if n == 0 then [] else Accepts(n - 1, now) + [Accept(n - 1, now)]
  }

  function UpTo(n: nat): (ids: seq<Id>)
    ensures |ids| == n && forall i :: 0 <= i < n ==> ids[i] == i
  {
    seq(n, i => i)
  }

  lemma {:induction false} AcceptedAppend(es: seq<Event>, e: Event)
    ensures Accepted(es + [e]) == Accepted(es) + if e.Accept? then [e.id] else []
  {
    if es == [] {
      assert es + [e] == [e] && Accepted([e][1..]) == [];
    } else {
      AcceptedAppend(es[1..], e);
      assert (es + [e])[1..] == es[1..] + [e] && (es + [e])[0] == es[0];
    }
  }

  lemma {:induction false} OwedAppend(s: State, owed: seq<Id>, es: seq<Event>, e: Event)
    ensures Owed(s, owed, es + [e]) == OwedNext(Run(s, es), Owed(s, owed, es), e)
    decreases |es|
  {
    if es == [] {
      assert es + [e] == [e] && [e][1..] == [];
    } else {
      assert (es + [e])[1..] == es[1..] + [e];
      OwedAppend(Step(s, es[0]), OwedNext(s, owed, es[0]), es[1..], e);
    }
  }

  lemma {:induction false} AcceptsOwe(s: State, n: nat, now: Time)
    requires s.record.None?
    ensures Accepted(Accepts(n, now)) == UpTo(n) == Owed(s, [], Accepts(n, now))
    ensures n > 0 ==> Run(s, Accepts(n, now)).record.Some?
  {
    if n > 0 {
      var es, e := Accepts(n - 1, now), Accept(n - 1, now);
      AcceptsOwe(s, n - 1, now);
      AcceptedAppend(es, e);
      OwedAppend(s, [], es, e);
      RunLast(s, es, e);
      assert UpTo(n) == UpTo(n - 1) + [n - 1];
    }
  }

  /** So a visible reply need not clear the obligation: of more than twenty messages the first one is forgotten. */
  lemma {:induction false} ForgottenReplyLeavesOpen(clock: Time, idle: Time, n: nat, now: Time)
    requires n > MAX_IDS
    ensures Run(Start(clock, idle), Accepts(n, now) + [Reply(Some(0), false, now)]).record.Some?
  {
    AcceptsOwe(Start(clock, idle), n, now);
    ReplyClosesIffRemembered(Start(clock, idle), Accepts(n, now), 0, now);
    assert 0 !in LastIds(UpTo(n));
  }

  // ---- the code ----

  /** The obligation file of one bot and the prompts it has put in its inbox. */
  class Keeper {
    var record: Option<Record>
    var sent: seq<Time>

    ghost predicate Shows(s: State)
      reads this
    {
      record == s.record && |sent| == |s.prompts| && forall i :: 0 <= i < |sent| ==> sent[i] == s.prompts[i].time
    }

    method RecordSend(id: Id, now: Time, ghost s: State)
      requires Shows(s)
      modifies this
      ensures Shows(Step(s, Accept(id, now)))
      ensures old(record).None? ==> record == Some(Record([id], 1, 0, now, None))
      ensures old(record).Some? ==>
        var (was, r) := (old(record).value, record);
        r.Some? && r.value == was.(ids := r.value.ids, coalesced := was.coalesced + 1, lastSend := now) &&
        var all := if id in was.ids then was.ids else was.ids + [id];
        r.value.ids == all[if |all| > 20 then |all| - 20 else 0..]
    {
      match record {
        case None => record := Some(Record([id], 1, 0, now, None));
        case Some(r) =>
          var ids := r.ids;
          if id !in ids {
            ids := ids + [id];
          }
          record := Some(r.(ids := LastIds(ids), coalesced := r.coalesced + 1, lastSend := now));
      }
    }

    method Settle(source: Option<Id>, userPending: bool, now: Time, ghost s: State)
      requires Shows(s)
      modifies this
      ensures Shows(Step(s, Reply(source, userPending, now)))
      ensures old(record).None? || (source.Some? && source.value !in old(record).value.ids) ==> record == old(record)
      ensures old(record).Some? && (source.Some? ==> source.value in old(record).value.ids) ==>
        record == if userPending then Some(old(record).value.(lastSend := now)) else None
    {
      if record.None? {
        return;
      }
      var r := record.value;
      if source.Some? && source.value !in r.ids {
        return;
      }
      if userPending {
        record := Some(r.(lastSend := now));
        return;
      }
      record := None;
    }

    method MaybeRedrive(userPending: bool, now: Time, idle: Time, ghost s: State) returns (prompted: bool)
      requires Shows(s) && s.idle == idle
      modifies this
      ensures Shows(Step(s, Poll(userPending, now)))
      ensures prompted <==> |sent| > |old(sent)|
      ensures
        var overdue := old(record).Some? && !userPending &&
          now - old(record).value.lastSend >= idle &&
          now - (if old(record).value.lastRedrive.Some? then old(record).value.lastRedrive.value else 0.0) >= idle;
        (prompted <==> overdue && old(record).value.redrives < 3) &&
        (prompted ==> sent == old(sent) + [now] && record == Some(
           old(record).value.(redrives := old(record).value.redrives + 1, lastRedrive := Some(now)))) &&
        (!prompted ==> sent == old(sent) && record == if overdue then None else old(record))
    {
      if record.None? {
        return false;
      }
      var r := record.value;
      if now - Reference(r) < idle {
        return false;
      }
      if userPending {
        return false;
      }
      if r.redrives >= MAX_REDRIVES {
        record := None;
        return false;
      }
      record := Some(r.(redrives := r.redrives + 1, lastRedrive := Some(now)));
      sent := sent + [now];
      return true;
    }
  }
}
