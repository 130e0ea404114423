/**
  Crash-safe replies: the order in which one turn touches the delivery ledger,
  the recovery claim, the outgoing mail and the inbox (agent/runtime.py,
  agent/recovery.py, harness/delivery.py).

  The inbox, the ledger rows of the terminal reply, the claims and the mail
  already sent survive a crash.  A run is any sequence of the atomic steps
  below, with a crash, an arrival or a cancellation possible between any two of
  them, and with the startup sweep re-sending claimed inputs after a crash, each
  claim as often as its budget lasts.
*/
module Delivery {
  type Id = nat

  datatype Status = Pending | Inflight | Sent | Uncertain

  /** One outgoing reply: the message whose turn it ends, and every inbox
      message that it answers (that message and the handoffs joined to it). */
  datatype Reply = Reply(own: Id, ids: set<Id>)

  /** Why the messages being archived leave the inbox. */
  datatype Why = Answered | Unsure | GivenUp

  datatype Phase =
    | Down
    | Idle
    | Running(msg: Id, joined: set<Id>)
    | Marking(msg: Id, joined: set<Id>, targets: seq<Id>, done: nat)
    | Receipting(msg: Id, joined: set<Id>, targets: seq<Id>, done: nat)
    | Archiving(left: seq<Id>, own: Id, rows: set<Id>, why: Why)
    | Releasing(own: Id, rows: set<Id>)
    | Pruning(rows: set<Id>)

  /** What the sweep knows of an unsettled turn: its inputs, how often it may still re-send them, and
      whether it has given the turn up. */
  datatype Claim = Claim(inputs: set<Id>, budget: nat, lost: bool)

  const BUDGET := 3

  datatype State = State(
    inbox: set<Id>,
    ledger: map<Id, Status>,
    claims: map<Id, Claim>,   // of the unsettled turns
    replies: seq<Reply>,
    phase: Phase,
    seen: set<Id>,      // every id that ever arrived
    unsure: set<Id>,    // archived because a crash hid the outcome of the send
    gone: set<Id>,      // cancelled, or given up after crashes
    crashed: bool)

  const INIT := State({}, map[], map[], [], Idle, {}, {}, {}, false)

  datatype Event =
    | Arrive(id: Id)
    | Withdraw(id: Id, release: bool)
    | Crash
    | Redeliver(turn: Id, ids: set<Id>)
    | Tombstone(turn: Id)
    | Boot
    | Pick(id: Id, giveUp: bool, stopped: bool)
    | Join(id: Id)
    | Defer(giveUp: bool, draining: bool)
    | Finish(order: seq<Id>)
    | Escape
    | Mark
    | Send
    | Receipt
    | Settle(order: seq<Id>)
    | Archive
    | Release
    | Prune(id: Id)

  /** The row proves or may hide a send: recovery never sends again. */
  predicate Settled(s: State, id: Id) {
    id in s.ledger && s.ledger[id] != Pending
  }

  /** Some unsettled turn with budget left lists the message, so that a sweep may re-send it. */
  predicate Resendable(s: State, id: Id) {
    exists t :: t in s.claims && s.claims[t].budget > 0 && id in s.claims[t].inputs
  }

  predicate IsAnswered(s: State, id: Id) {
    exists i :: 0 <= i < |s.replies| && id in s.replies[i].ids
  }

  predicate NoDup(xs: seq<Id>) {
    forall i, k :: 0 <= i < k < |xs| ==> xs[i] != xs[k]
  }

  function Ids(xs: seq<Id>): set<Id> {
    set x | x in xs
  }

  ghost predicate Enumerates(xs: seq<Id>, ids: set<Id>) {
    NoDup(xs) && forall x :: x in xs <==> x in ids
  }

  // ---- the ledger's writes (harness/delivery.py) ----

  function BeginRow(ledger: map<Id, Status>, id: Id): map<Id, Status> {
    if id in ledger then ledger else ledger[id := Pending]
  }

  function InflightRow(ledger: map<Id, Status>, id: Id): map<Id, Status> {
    if id in ledger && ledger[id] in {Sent, Uncertain} then ledger else ledger[id := Inflight]
  }

  function ClearPending(ledger: map<Id, Status>, id: Id): map<Id, Status> {
    if id in ledger && ledger[id] == Pending then ledger - {id} else ledger
  }

  // ---- steps ----

  ghost predicate Enabled(s: State, e: Event) {
    match e
    case Arrive(id) => id !in s.seen
    case Withdraw(id, _) => id in s.inbox
    case Crash => true
    case Redeliver(turn, ids) =>
      && s.phase.Down? && turn in s.claims && s.claims[turn].budget > 0
      && ids <= s.claims[turn].inputs - s.inbox
    case Tombstone(turn) =>
      s.phase.Down? && turn in s.claims && s.claims[turn].budget == 0 && !s.claims[turn].lost
    case Boot => s.phase.Down?
    case Pick(id, _, _) => s.phase.Idle? && id in s.inbox
    case Join(id) =>
      && s.phase.Running? && s.phase.msg in s.claims
      && id in s.inbox && id != s.phase.msg && id !in s.phase.joined
    case Defer(_, _) => s.phase.Running?
    case Finish(order) => s.phase.Running? && Enumerates(order, s.phase.joined * s.inbox)
    case Escape => s.phase.Running?
    case Mark => s.phase.Marking? && s.phase.done < 2 * |s.phase.targets|
    case Send => s.phase.Marking? && s.phase.done == 2 * |s.phase.targets|
    case Receipt => s.phase.Receipting? && s.phase.done < |s.phase.targets|
    case Settle(order) =>
      && s.phase.Receipting? && s.phase.done == |s.phase.targets|
      && Enumerates(order, s.phase.joined * s.inbox)
    case Archive => s.phase.Archiving? && s.phase.left != []
    case Release => s.phase.Releasing?
    case Prune(id) => s.phase.Pruning? && id in s.phase.rows
  }

  /** Leaves the inbox, loses its claim, then loses its rows. */
  function Retire(s: State, id: Id, why: Why): State {
    s.(phase := Archiving([id], id, {id}, why))
  }

  /** What a fresh dispatch does with message id: recover, stop or run it. */
  function Dispatch(s: State, id: Id, giveUp: bool, stopped: bool): State {
    if giveUp then Retire(s, id, GivenUp)
    else if id in s.ledger && s.ledger[id] == Sent then Retire(s, id, Answered)
    else if Settled(s, id) then Retire(s, id, Unsure)
    else if stopped then s.(phase := Marking(id, {}, [id], 0))
    else
      s.(ledger := ClearPending(s.ledger, id), claims := s.claims[id := Admitted(s.claims, id)],
         phase := Running(id, {}))
  }

  /** Re-admitting a turn that is still unsettled keeps what is left of its budget. */
  function Admitted(claims: map<Id, Claim>, id: Id): Claim {
    Claim({id}, if id in claims then claims[id].budget else BUDGET, false)
  }

  function JoinStep(s: State, id: Id): State
    requires s.phase.Running? && s.phase.msg in s.claims
  {
    var m := s.phase.msg;
    var c := s.claims[m];
    s.(claims := s.claims[m := c.(inputs := c.inputs + {id})], phase := Running(m, s.phase.joined + {id}))
  }

  function MarkStep(s: State): State
    requires s.phase.Marking? && s.phase.done < 2 * |s.phase.targets|
  {
    var id := s.phase.targets[s.phase.done / 2];
    s.(ledger := if s.phase.done % 2 == 0 then BeginRow(s.ledger, id) else InflightRow(s.ledger, id),
       phase := Marking(s.phase.msg, s.phase.joined, s.phase.targets, s.phase.done + 1))
  }

  function SendStep(s: State): State
    requires s.phase.Marking?
  {
    s.(replies := s.replies + [Reply(s.phase.msg, Ids(s.phase.targets))],
       phase := Receipting(s.phase.msg, s.phase.joined, s.phase.targets, 0))
  }

  function ReceiptStep(s: State): State
    requires s.phase.Receipting? && s.phase.done < |s.phase.targets|
  {
    s.(ledger := s.ledger[s.phase.targets[s.phase.done] := Sent],
       phase := Receipting(s.phase.msg, s.phase.joined, s.phase.targets, s.phase.done + 1))
  }

  function ArchiveStep(s: State): State
    requires s.phase.Archiving? && s.phase.left != []
  {
    var id, left := s.phase.left[0], s.phase.left[1..];
    s.(inbox := s.inbox - {id},
       unsure := if s.phase.why == Unsure then s.unsure + {id} else s.unsure,
       gone := if s.phase.why == GivenUp then s.gone + {id} else s.gone,
       phase := if left == [] then Releasing(s.phase.own, s.phase.rows)
                else Archiving(left, s.phase.own, s.phase.rows, s.phase.why))
  }

  function PruneStep(s: State, id: Id): State
    requires s.phase.Pruning?
  {
    var rows := s.phase.rows - {id};
    s.(ledger := s.ledger - {id}, phase := if rows == {} then Idle else Pruning(rows))
  }

  ghost function After(s: State, e: Event): State
    requires Enabled(s, e)
  {
    match e
    case Arrive(id) => s.(inbox := s.inbox + {id}, seen := s.seen + {id})
    case Withdraw(id, release) =>
      s.(inbox := s.inbox - {id}, gone := s.gone + {id}, claims := if release then s.claims - {id} else s.claims)
    case Crash => s.(phase := Down, crashed := true)
    case Redeliver(turn, ids) =>
      var c := s.claims[turn];
      s.(inbox := s.inbox + ids, claims := s.claims[turn := c.(budget := c.budget - 1)])
    case Tombstone(turn) =>
      var c := s.claims[turn];
      s.(inbox := s.inbox - {turn}, gone := s.gone + {turn} * s.inbox, claims := s.claims[turn := c.(lost := true)])
    case Boot => s.(phase := Idle)
    case Pick(id, giveUp, stopped) => Dispatch(s, id, giveUp, stopped)
    case Join(id) => JoinStep(s, id)
    case Defer(giveUp, draining) =>
      if giveUp then Retire(s, s.phase.msg, GivenUp)
      else s.(claims := if draining then s.claims else s.claims - {s.phase.msg}, phase := Idle)
    case Finish(order) =>
      s.(phase := Marking(s.phase.msg, s.phase.joined, [s.phase.msg] + order, 0))
    case Escape => s.(phase := Marking(s.phase.msg, {}, [s.phase.msg], 0))
    case Mark => MarkStep(s)
    case Send => SendStep(s)
    case Receipt => ReceiptStep(s)
    case Settle(order) =>
      s.(phase := Archiving(order + [s.phase.msg], s.phase.msg, s.phase.joined + {s.phase.msg}, Answered))
    case Archive => ArchiveStep(s)
    case Release => s.(claims := s.claims - {s.phase.own}, phase := Pruning(s.phase.rows))
    case Prune(id) => PruneStep(s, id)
  }

  /** The states a sequence of steps leads to, when every step is enabled. */
  ghost predicate Reaches(s: State, es: seq<Event>, t: State)
    decreases |es|
  {
    if es == [] then s == t
    else Enabled(s, es[0]) && Reaches(After(s, es[0]), es[1..], t)
  }

  // ---- the invariant ----

  ghost predicate PhaseOk(s: State) {
    match s.phase
    case Down => true
    case Idle => true
    case Running(m, joined) => {m} + joined <= s.seen && m !in joined && m !in s.ledger
    case Marking(m, joined, targets, done) =>
      && {m} + joined <= s.seen && m !in joined
      && targets != [] && targets[0] == m && done <= 2 * |targets|
      && (forall x :: x in joined && x in s.inbox ==> x in targets)
      && (forall i :: 1 <= i < |targets| ==> targets[i] in joined)
      && (forall i :: 0 <= i < done / 2 ==> Settled(s, targets[i]))
    case Receipting(m, joined, targets, done) =>
      && {m} + joined <= s.seen && m !in joined && m in targets && done <= |targets|
      && (forall x :: x in joined && x in s.inbox ==> x in targets)
      && (forall x :: x in targets ==> IsAnswered(s, x) && x in joined + {m})
    case Archiving(left, own, rows, why) =>
      && left != [] && (forall x :: x in left ==> x in rows) && own in rows
      && rows <= s.seen && (forall x :: x in rows && x in s.inbox ==> x in left)
      && (why == Answered ==> forall x :: x in left ==> IsAnswered(s, x))
    case Releasing(own, rows) => own in rows && rows <= s.seen && forall x :: x in rows ==> x !in s.inbox
    case Pruning(rows) => rows != {} && rows <= s.seen && forall x :: x in rows ==> x !in s.inbox
  }

  /** A receipt is never written for a reply that was not sent. */
  ghost predicate ReceiptsAreTrue(s: State) {
    forall id :: id in s.ledger ==> s.ledger[id] != Uncertain && (s.ledger[id] == Sent ==> IsAnswered(s, id))
  }

  ghost predicate Accounted(s: State) {
    forall id :: id in s.seen ==> id in s.inbox || IsAnswered(s, id) || id in s.unsure || id in s.gone
  }

  ghost predicate KnownIds(s: State) {
    && s.inbox <= s.seen && s.ledger.Keys <= s.seen
    && (forall t, x :: t in s.claims && x in s.claims[t].inputs ==> x in s.seen)
    && forall i :: 0 <= i < |s.replies| ==> s.replies[i].own in s.replies[i].ids && s.replies[i].ids <= s.seen
  }

  ghost predicate Inv(s: State) {
    KnownIds(s) && PhaseOk(s) && ReceiptsAreTrue(s) && Accounted(s)
  }

  // ---- every step keeps the invariant ----

  /** Steps that neither send nor touch what is recorded about a reply. */
  lemma SameReplies(s: State, t: State)
    requires t.replies == s.replies
    ensures forall id :: IsAnswered(t, id) <==> IsAnswered(s, id)
  {
  }

  lemma {:induction false} OutsideKeeps(s: State, e: Event)
    requires Inv(s) && Enabled(s, e)
    requires e.Arrive? || e.Withdraw? || e.Crash? || e.Redeliver? || e.Tombstone? || e.Boot?
    ensures Inv(After(s, e))
  {
    SameReplies(s, After(s, e));
  }

  lemma {:induction false} RunningKeeps(s: State, e: Event)
    requires Inv(s) && Enabled(s, e)
    requires e.Join? || e.Defer?
    ensures Inv(After(s, e))
  {
    SameReplies(s, After(s, e));
  }

  lemma {:induction false} RetireKeeps(s: State, id: Id, why: Why)
    requires Inv(s) && id in s.inbox && (why == Answered ==> IsAnswered(s, id))
    ensures Inv(Retire(s, id, why))
  {
    SameReplies(s, Retire(s, id, why));
  }

  lemma {:induction false} PickKeeps(s: State, e: Event)
    requires Inv(s) && Enabled(s, e) && e.Pick?
    ensures Inv(After(s, e))
  {
    if e.giveUp || Settled(s, e.id) {
      RetireKeeps(s, e.id, GivenUp);
      RetireKeeps(s, e.id, Unsure);
      if s.ledger.Keys >= {e.id} && s.ledger[e.id] == Sent { RetireKeeps(s, e.id, Answered); }
    } else {
      StartKeeps(s, e);
    }
  }

  lemma {:induction false} StartKeeps(s: State, e: Event)
    requires Inv(s) && Enabled(s, e) && e.Pick? && !e.giveUp && !Settled(s, e.id)
    ensures Inv(After(s, e))
  {
    SameReplies(s, After(s, e));
  }

  lemma {:induction false} FinishKeeps(s: State, e: Event)
    requires Inv(s) && Enabled(s, e)
    requires e.Finish? || e.Escape?
    ensures Inv(After(s, e))
  {
    var t := After(s, e);
    SameReplies(s, t);
    if e.Finish? {
      var targets := t.phase.targets;
      assert forall i :: 1 <= i < |targets| ==> targets[i] == e.order[i - 1] && targets[i] in e.order;
      assert forall x :: x in e.order ==> x in targets;
    }
  }

  lemma {:induction false} MarkRows(s: State)
    requires Enabled(s, Mark)
    ensures forall id :: Settled(s, id) ==> Settled(MarkStep(s), id)
    ensures forall id :: id in MarkStep(s).ledger && MarkStep(s).ledger[id] in {Sent, Uncertain} ==>
      id in s.ledger && s.ledger[id] == MarkStep(s).ledger[id]
    ensures s.phase.done % 2 == 1 ==> Settled(MarkStep(s), s.phase.targets[s.phase.done / 2])
  {
  }

  lemma {:induction false} MarkPhase(s: State)
    requires Enabled(s, Mark) && PhaseOk(s)
    ensures PhaseOk(MarkStep(s))
  {
    MarkRows(s);
    var t := MarkStep(s);
    forall i | 0 <= i < t.phase.done / 2 ensures Settled(t, t.phase.targets[i]) {
      if i < s.phase.done / 2 {
        assert Settled(s, s.phase.targets[i]);
      }
    }
  }

  lemma {:induction false} MarkKnown(s: State)
    requires Enabled(s, Mark) && KnownIds(s) && PhaseOk(s)
    ensures KnownIds(MarkStep(s))
  {
    assert s.phase.targets[s.phase.done / 2] in s.seen;
  }

  lemma {:induction false} MarkKeeps(s: State)
    requires Inv(s) && Enabled(s, Mark)
    ensures Inv(After(s, Mark))
  {
    MarkRows(s);
    MarkPhase(s);
    MarkKnown(s);
    SameReplies(s, MarkStep(s));
  }

  lemma {:induction false} SendAnswers(s: State)
    requires Enabled(s, Send)
    ensures forall id :: IsAnswered(SendStep(s), id) <==> IsAnswered(s, id) || id in s.phase.targets
  {
    var t := SendStep(s);
    var n := |s.replies|;
    forall id ensures IsAnswered(t, id) <==> IsAnswered(s, id) || id in s.phase.targets {
      if IsAnswered(s, id) {
        var i :| 0 <= i < n && id in s.replies[i].ids;
        assert id in t.replies[i].ids;
      }
      if id in s.phase.targets {
        assert id in t.replies[n].ids;
      }
    }
  }

  lemma {:induction false} SendPhase(s: State)
    requires Enabled(s, Send) && PhaseOk(s)
    ensures PhaseOk(SendStep(s))
    ensures forall id :: id in s.phase.targets ==> Settled(s, id) && id in s.seen
  {
    SendAnswers(s);
    var targets := s.phase.targets;
    assert targets[0] in targets;
    forall id | id in targets ensures Settled(s, id) && id in s.phase.joined + {s.phase.msg} {
      var i :| 0 <= i < |targets| && targets[i] == id;
      assert i < s.phase.done / 2;
    }
  }

  lemma {:induction false} SendKeeps(s: State)
    requires Inv(s) && Enabled(s, Send)
    ensures Inv(After(s, Send))
  {
    SendAnswers(s);
    SendPhase(s);
    var t, n := SendStep(s), |s.replies|;
    assert s.phase.targets[0] in Ids(s.phase.targets);
    assert forall i :: 0 <= i < n ==> t.replies[i] == s.replies[i];
  }

  lemma {:induction false} ReceiptKeeps(s: State)
    requires Inv(s) && Enabled(s, Receipt)
    ensures Inv(After(s, Receipt))
  {
    assert s.phase.targets[s.phase.done] in s.phase.targets;
    SameReplies(s, ReceiptStep(s));
  }

  lemma {:induction false} SettleKeeps(s: State, e: Event)
    requires Inv(s) && Enabled(s, e) && e.Settle?
    ensures Inv(After(s, e))
  {
    var left := e.order + [s.phase.msg];
    assert forall x :: x in left <==> x in e.order || x == s.phase.msg;
    SameReplies(s, After(s, e));
  }

  lemma {:induction false} ArchiveKeeps(s: State)
    requires Inv(s) && Enabled(s, Archive)
    ensures Inv(After(s, Archive))
  {
    var left := s.phase.left;
    assert forall x :: x in left <==> x == left[0] || x in left[1..];
    SameReplies(s, ArchiveStep(s));
  }

  lemma {:induction false} CleanUpKeeps(s: State, e: Event)
    requires Inv(s) && Enabled(s, e) && (e.Release? || e.Prune?)
    ensures Inv(After(s, e))
  {
    SameReplies(s, After(s, e));
  }

  lemma {:induction false} StepKeeps(s: State, e: Event)
    requires Inv(s) && Enabled(s, e)
    ensures Inv(After(s, e))
  {
    match e
    case Join(_) => RunningKeeps(s, e);
    case Defer(_, _) => RunningKeeps(s, e);
    case Pick(_, _, _) => PickKeeps(s, e);
    case Finish(_) => FinishKeeps(s, e);
    case Escape => FinishKeeps(s, e);
    case Mark => MarkKeeps(s);
    case Send => SendKeeps(s);
    case Receipt => ReceiptKeeps(s);
    case Settle(_) => SettleKeeps(s, e);
    case Archive => ArchiveKeeps(s);
    case Release => CleanUpKeeps(s, e);
    case Prune(_) => CleanUpKeeps(s, e);
    case _ => OutsideKeeps(s, e);
  }

  /** A receipt is never taken back or downgraded, except by dropping the row. */
  lemma {:induction false} ReceiptStays(s: State, e: Event, id: Id)
    requires Enabled(s, e) && e != Prune(id) && id in s.ledger && s.ledger[id] == Sent
    ensures id in After(s, e).ledger && After(s, e).ledger[id] == Sent
  {
  }

  lemma {:induction false} RunKeeps(s: State, es: seq<Event>, t: State)
    requires Inv(s) && Reaches(s, es, t)
    ensures Inv(t)
    decreases |es|
  {
    if es != [] {
      StepKeeps(s, es[0]);
      RunKeeps(After(s, es[0]), es[1..], t);
    }
  }

  lemma {:induction false} ReachesAppend(s: State, es: seq<Event>, t: State, fs: seq<Event>, u: State)
    requires Reaches(s, es, t) && Reaches(t, fs, u)
    ensures Reaches(s, es + fs, u)
    decreases |es|
  {
    if es == [] {
      assert es + fs == fs;
    } else {
      ReachesAppend(After(s, es[0]), es[1..], t, fs, u);
      assert (es + fs)[1..] == es[1..] + fs;
    }
  }

  lemma {:induction false} Extend(s: State, es: seq<Event>, t: State, e: Event)
    requires Reaches(s, es, t) && Enabled(t, e)
    ensures Reaches(s, es + [e], After(t, e))
  {
    assert Reaches(After(t, e), [], After(t, e));
    assert Reaches(t, [e], After(t, e));
    ReachesAppend(s, es, t, [e], After(t, e));
  }

  // ---- nothing is lost, and only a crash leaves doubt ----

  /** No message disappears, whatever crashes and sweeps happen: it is queued, answered,
      cancelled or given up, or it was archived because a crash hid whether its reply went out;
      and a receipt is never false. */
  lemma {:induction false} NothingIsLost(es: seq<Event>, t: State)
    requires Reaches(INIT, es, t)
    ensures forall id :: id in t.seen ==> id in t.inbox || IsAnswered(t, id) || id in t.unsure || id in t.gone
    ensures forall id :: id in t.ledger && t.ledger[id] == Sent ==> IsAnswered(t, id)
  {
    RunKeeps(INIT, es, t);
  }

  predicate InHand(s: State, id: Id) {
    match s.phase
    case Marking(_, _, targets, _) => id in targets
    case Receipting(_, _, targets, _) => id in targets
    case Archiving(left, _, _, why) => why == Answered && id in left
    case _ => false
  }

  ghost predicate Calm(s: State) {
    && (forall id :: id in s.inbox && Settled(s, id) ==> InHand(s, id))
    && (s.phase.Archiving? ==> s.phase.why != Unsure)
    && s.unsure == {} && !s.phase.Down?
  }

  lemma {:induction false} CalmMark(s: State)
    requires Calm(s) && Enabled(s, Mark)
    ensures Calm(MarkStep(s))
  {
    assert s.phase.targets[s.phase.done / 2] in s.phase.targets;
  }

  lemma {:induction false} CalmReceipt(s: State)
    requires Calm(s) && Enabled(s, Receipt)
    ensures Calm(ReceiptStep(s))
  {
    assert s.phase.targets[s.phase.done] in s.phase.targets;
  }

  lemma {:induction false} CalmSettle(s: State, e: Event)
    requires Inv(s) && Calm(s) && Enabled(s, e) && e.Settle?
    ensures Calm(After(s, e))
  {
    var left := e.order + [s.phase.msg];
    assert forall x :: x in left <==> x in e.order || x == s.phase.msg;
  }

  lemma {:induction false} CalmArchive(s: State)
    requires Calm(s) && Enabled(s, Archive)
    ensures Calm(ArchiveStep(s))
  {
    assert forall x :: x in s.phase.left <==> x == s.phase.left[0] || x in s.phase.left[1..];
  }

  lemma {:induction false} CalmOther(s: State, e: Event)
    requires Inv(s) && Calm(s) && Enabled(s, e) && !e.Crash?
    requires !e.Mark? && !e.Receipt? && !e.Settle? && !e.Archive?
    ensures Calm(After(s, e))
  {
  }

  lemma {:induction false} CalmStep(s: State, e: Event)
    requires Inv(s) && Calm(s) && Enabled(s, e) && !e.Crash?
    ensures Calm(After(s, e))
  {
    match e
    case Mark => CalmMark(s);
    case Receipt => CalmReceipt(s);
    case Settle(_) => CalmSettle(s, e);
    case Archive => CalmArchive(s);
    case _ => CalmOther(s, e);
  }

  lemma {:induction false} CalmRun(s: State, es: seq<Event>, t: State)
    requires Inv(s) && Calm(s) && Reaches(s, es, t)
    requires forall i :: 0 <= i < |es| ==> !es[i].Crash?
    ensures t.unsure == {}
    decreases |es|
  {
    if es != [] {
      StepKeeps(s, es[0]);
      CalmStep(s, es[0]);
      assert forall i :: 0 <= i < |es[1..]| ==> es[1..][i] == es[i + 1];
      CalmRun(After(s, es[0]), es[1..], t);
    }
  }

  /** Only a crash can leave a reply in doubt. */
  lemma {:induction false} NoCrashNoDoubt(es: seq<Event>, t: State)
    requires Reaches(INIT, es, t)
    requires forall i :: 0 <= i < |es| ==> !es[i].Crash?
    ensures forall id :: id in t.seen ==> id in t.inbox || IsAnswered(t, id) || id in t.gone
  {
    RunKeeps(INIT, es, t);
    CalmRun(INIT, es, t);
  }
}
