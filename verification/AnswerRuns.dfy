/** Two runs that the dispatch order allows and that answer a message twice. */
module AnswerRuns {
  import opened Delivery
  import opened AnswerOnce
  import opened AnswerExact

  /** One lane of handoffs of one room and one request, none placed by the user: when they arrived,
      oldest first; which of them the scheduler has put off, which a restart forgets; and which
      claims the sweep has handled since the last crash. */
  datatype World = World(s: State, arrived: seq<Id>, late: set<Id>, swept: set<Id>)

  /** The item is queued, has not been put off, and nothing queued before it has not either; or
      everything queued has been put off and it is the oldest. */
  predicate IsNext(w: World, id: Id) {
    exists i :: 0 <= i < |w.arrived| && w.arrived[i] == id && id in w.s.inbox &&
      if id in w.late then
        forall k :: 0 <= k < |w.arrived| && w.arrived[k] in w.s.inbox ==> w.arrived[k] in w.late && i <= k
      else
        forall k :: 0 <= k < i && w.arrived[k] in w.s.inbox ==> w.arrived[k] in w.late
  }

  /** Dispatch is in order; a turn that comes to its end has joined everything queued, which it does
      before each completion; the sweep re-sends everything missing of each claim, once, before the
      bot comes up. */
  ghost predicate CodeAllows(w: World, e: Event) {
    && Enabled(w.s, e)
    && match e
       case Pick(id, _, _) => IsNext(w, id)
       case Finish(_) => w.s.inbox <= w.s.phase.joined + {w.s.phase.msg}
       case Redeliver(turn, ids) => turn !in w.swept && ids == w.s.claims[turn].inputs - w.s.inbox
       case Boot => forall t :: t in w.s.claims ==> t in w.swept || w.s.claims[t].lost
       case _ => true
  }

  ghost function Then(w: World, e: Event): World
    requires Enabled(w.s, e)
  {
    World(After(w.s, e),
          if e.Arrive? then w.arrived + [e.id] else w.arrived,
          if e.Crash? then {}
          else if e.Pick? then w.late - {e.id}
          else if e.Defer? && !e.giveUp then w.late + {w.s.phase.msg}
          else w.late,
          if e.Crash? then {} else if e.Redeliver? then w.swept + {e.turn} else w.swept)
  }

  ghost predicate Goes(w: World, es: seq<Event>, v: World)
    decreases |es|
  {
    if es == [] then w == v else CodeAllows(w, es[0]) && Goes(Then(w, es[0]), es[1..], v)
  }

  const START := World(INIT, [], {}, {})

  lemma {:induction false} First(w: World, e: Event, v: World, es: seq<Event>, u: World)
    requires CodeAllows(w, e) && v == Then(w, e) && Goes(v, es, u)
    ensures Goes(w, [e] + es, u)
  {
    assert ([e] + es)[1..] == es;
  }

  lemma {:induction false} Joined(w: World, es: seq<Event>, v: World, fs: seq<Event>, u: World)
    requires Goes(w, es, v) && Goes(v, fs, u)
    ensures Goes(w, es + fs, u)
    decreases |es|
  {
    if es == [] {
      assert es + fs == fs;
    } else {
      Joined(Then(w, es[0]), es[1..], v, fs, u);
      assert (es + fs)[1..] == es[1..] + fs;
    }
  }

  lemma {:induction false} GoesReaches(w: World, es: seq<Event>, v: World)
    requires Goes(w, es, v)
    ensures Reaches(w.s, es, v.s)
    decreases |es|
  {
    if es != [] {
      GoesReaches(Then(w, es[0]), es[1..], v);
    }
  }

  // ---- steps of a turn ----

  lemma {:induction false} Steps2(w: World, e1: Event, w1: World, e2: Event, w2: World)
    requires CodeAllows(w, e1) && w1 == Then(w, e1) && CodeAllows(w1, e2) && w2 == Then(w1, e2)
    ensures Goes(w, [e1] + [e2], w2)
  {
    assert Goes(w2, [], w2);
    First(w1, e2, w2, [], w2);
    First(w, e1, w1, [e2], w2);
  }

  lemma {:induction false} Steps3(w: World, e1: Event, w1: World, e2: Event, w2: World, e3: Event, w3: World)
    requires CodeAllows(w, e1) && w1 == Then(w, e1) && CodeAllows(w1, e2) && w2 == Then(w1, e2)
    requires CodeAllows(w2, e3) && w3 == Then(w2, e3)
    ensures Goes(w, [e1] + ([e2] + [e3]), w3)
  {
    Steps2(w1, e2, w2, e3, w3);
    First(w, e1, w1, [e2] + [e3], w3);
  }

  function TwoQueued(first: Id, second: Id): State {
    INIT.(inbox := {first, second}, seen := {first, second})
  }

  /** The first message arrives, takes its turn, is interrupted and put off; then the second arrives. */
  lemma {:induction false} Deferred(first: Id, second: Id) returns (es: seq<Event>)
    requires first != second
    ensures forall e <- es :: !e.Join? && !e.Prune?
    ensures Goes(START, es, World(TwoQueued(first, second), [first, second], {first}, {}))
  {
    var w1 := Then(START, Arrive(first));
    assert w1 == World(INIT.(inbox := {first}, seen := {first}), [first], {}, {});
    assert IsNext(w1, first) by { assert w1.arrived[0] == first; }
    var w2 := Then(w1, Pick(first, false, false));
    var w3 := PutOff(first, w1, w2);
    var w4 := Then(w3, Arrive(second));
    assert w4 == World(TwoQueued(first, second), [first, second], {first}, {});
    Steps2(START, Arrive(first), w1, Pick(first, false, false), w2);
    Steps2(w2, Defer(false, false), w3, Arrive(second), w4);
    Joined(START, [Arrive(first)] + [Pick(first, false, false)], w2, [Defer(false, false)] + [Arrive(second)], w4);
    es := [Arrive(first)] + [Pick(first, false, false)] + ([Defer(false, false)] + [Arrive(second)]);
  }

  lemma {:induction false} PutOff(first: Id, w1: World, w2: World) returns (w3: World)
    requires w1 == World(INIT.(inbox := {first}, seen := {first}), [first], {}, {})
    requires Enabled(w1.s, Pick(first, false, false)) && w2 == Then(w1, Pick(first, false, false))
    ensures Enabled(w2.s, Defer(false, false))
    ensures w3 == Then(w2, Defer(false, false)) == World(w1.s, [first], {first}, {})
  {
    w3 := Then(w2, Defer(false, false));
    assert map[first := Claim({first}, BUDGET, false)] - {first} == map[];
  }

  /** The message starts its turn and joins the other one queued. */
  lemma {:induction false} TurnJoins(w: World, x: Id, y: Id) returns (v: World)
    requires w.s.phase.Idle? && IsNext(w, x) && x !in w.s.ledger && y in w.s.inbox && x != y
    ensures Goes(w, [Pick(x, false, false)] + [Join(y)], v)
    ensures y !in w.s.ledger ==> JoinsAreClean(w.s, [Pick(x, false, false)] + [Join(y)], y)
    ensures JoinsAreClean(w.s, [Pick(x, false, false)] + [Join(y)], x)
    ensures
      var c := Claim({x, y}, Admitted(w.s.claims, x).budget, false);
      v == World(w.s.(claims := w.s.claims[x := c], phase := Running(x, {y})), w.arrived, w.late - {x}, w.swept)
  {
    var w1 := Then(w, Pick(x, false, false));
    v := Then(w1, Join(y));
    assert {x} + {y} == {x, y} && {} + {y} == {y};
    assert v.s.claims == w.s.claims[x := Claim({x, y}, Admitted(w.s.claims, x).budget, false)];
    Steps2(w, Pick(x, false, false), w1, Join(y), v);
  }

  /** Steps of the reply are allowed whenever they are enabled. */
  lemma {:induction false} QuietGoes(w: World, es: seq<Event>, t: State) returns (v: World)
    requires Reaches(w.s, es, t) && forall i :: 0 <= i < |es| ==> es[i].Mark? || es[i].Send?
    ensures Goes(w, es, v) && v == w.(s := t)
    decreases |es|
  {
    if es == [] {
      v := w;
    } else {
      assert forall i :: 0 <= i < |es[1..]| ==> es[1..][i] == es[i + 1];
      v := QuietGoes(Then(w, es[0]), es[1..], t);
    }
  }

  /** A turn that has joined the only other message queued replies to both. */
  lemma {:induction false} PairReplies(w: World, x: Id, y: Id) returns (es: seq<Event>, v: World)
    requires w.s.phase == Running(x, {y}) && w.s.inbox == {x, y} && x != y
    ensures Goes(w, es, v) && forall e <- es :: !e.Prune? && !e.Join?
    ensures v.s.replies == w.s.replies + [Reply(x, {x, y})]
  {
    assert Enumerates([y], w.s.phase.joined * w.s.inbox);
    var m := Then(w, Finish([y]));
    var rest, t := PreparedReplyLeaves(m.s);
    v := QuietGoes(m, rest, t);
    First(w, Finish([y]), m, rest, v);
    es := [Finish([y])] + rest;
    assert Ids([x] + [y]) == {x, y} by { assert [x] + [y] == [x, y]; }
  }

  // ---- a handoff answered twice ----

  /** The watchdog abandons the turn; the error notice goes out, and then a crash. */
  lemma {:induction false} EscapedSends(w: World, x: Id, y: Id) returns (es: seq<Event>, v: World)
    requires w.s.phase == Running(x, {y}) && x !in w.s.ledger
    ensures Goes(w, es, v) && forall e <- es :: !e.Prune?
    ensures
      v == w.(s := w.s.(ledger := w.s.ledger[x := Inflight], replies := w.s.replies + [Reply(x, {x})],
                        phase := Receipting(x, {}, [x], 0)))
  {
    var w1 := Then(w, Escape);
    var w2 := Then(w1, Mark);
    var w3 := Then(w2, Mark);
    assert w3.s.ledger == w.s.ledger[x := Inflight];
    v := Then(w3, Send);
    assert Ids([x]) == {x};
    Steps2(w, Escape, w1, Mark, w2);
    Steps2(w2, Mark, w3, Send, v);
    Joined(w, [Escape] + [Mark], w2, [Mark] + [Send], v);
    es := [Escape] + [Mark] + ([Mark] + [Send]);
  }

  /** A crash, and a restart whose sweep re-sends what is missing of the one claim there is. */
  lemma {:induction false} Restart(w: World, c: Id) returns (es: seq<Event>, v: World)
    requires w.s.claims.Keys == {c} && w.s.claims[c].budget > 0
    ensures Goes(w, es, v) && forall e <- es :: !e.Join? && !e.Prune?
    ensures
      var claim := w.s.claims[c];
      v == World(w.s.(inbox := w.s.inbox + claim.inputs, claims := map[c := claim.(budget := claim.budget - 1)],
                      phase := Idle, crashed := true), w.arrived, {}, {c})
  {
    var claim := w.s.claims[c];
    var missing := claim.inputs - w.s.inbox;
    var w1 := Then(w, Crash);
    var w2 := Then(w1, Redeliver(c, missing));
    assert w2.s.claims == map[c := claim.(budget := claim.budget - 1)];
    assert w.s.inbox + missing == w.s.inbox + claim.inputs;
    v := Then(w2, Boot);
    Steps3(w, Crash, w1, Redeliver(c, missing), w2, Boot, v);
    es := [Crash] + ([Redeliver(c, missing)] + [Boot]);
  }

  /** The first of these was put off, so the second runs and joins it; the run hangs and is
      abandoned; a crash right after the notice leaves both queued. */
  lemma {:induction false} HungThenCrash(w: World, x: Id, y: Id) returns (es: seq<Event>, v: World)
    requires w == World(TwoQueued(y, x), [y, x], {y}, {}) && x != y
    ensures Goes(w, es, v) && forall e <- es :: !e.Prune?
    ensures v.s.phase.Idle? && v.s.inbox == {x, y} && v.s.ledger == map[x := Inflight]
    ensures v.arrived == w.arrived && v.late == {} && v.s.replies == [Reply(x, {x})]
  {
    assert IsNext(w, x) by { assert w.arrived[1] == x; }
    var w1 := TurnJoins(w, x, y);
    var e2;
    e2, v := EscapedThenCrash(w1, x, y);
    Joined(w, [Pick(x, false, false)] + [Join(y)], w1, e2, v);
    es := [Pick(x, false, false)] + [Join(y)] + e2;
  }

  lemma {:induction false} EscapedThenCrash(w: World, x: Id, y: Id) returns (es: seq<Event>, v: World)
    requires w.s.phase == Running(x, {y}) && w.s.inbox == {x, y} && w.s.ledger == map[]
    requires w.s.claims == map[x := Claim({x, y}, BUDGET, false)]
    ensures Goes(w, es, v) && forall e <- es :: !e.Prune?
    ensures v.s.phase.Idle? && v.s.inbox == {x, y} && v.s.ledger == map[x := Inflight]
    ensures v.arrived == w.arrived && v.late == {} && v.s.replies == w.s.replies + [Reply(x, {x})]
  {
    var e1, w1 := EscapedSends(w, x, y);
    var e2;
    e2, v := Restart(w1, x);
    Joined(w, e1, w1, e2, v);
    es := e1 + e2;
  }

  lemma {:induction false} AnsweredThenCrash() returns (es: seq<Event>, v: World)
    ensures Goes(START, es, v) && forall e <- es :: !e.Prune?
    ensures v.s.phase.Idle? && v.s.inbox == {1, 2} && v.s.ledger == map[1 := Inflight]
    ensures v.arrived == [2, 1] && v.late == {} && v.s.replies == [Reply(1, {1})]
  {
    var e1 := Deferred(2, 1);
    var w1 := World(TwoQueued(2, 1), [2, 1], {2}, {});
    var e2;
    e2, v := HungThenCrash(w1, 1, 2);
    Joined(START, e1, w1, e2, v);
    es := e1 + e2;
  }

  lemma {:induction false} JoinedAndAnswered(w: World, x: Id, y: Id) returns (es: seq<Event>, v: World)
    requires w.s.phase.Idle? && w.s.inbox == {x, y} && x != y && IsNext(w, x) && x !in w.s.ledger
    ensures Goes(w, es, v) && forall e <- es :: !e.Prune? && e != Join(x)
    ensures v.s.replies == w.s.replies + [Reply(x, {x, y})]
  {
    var w1 := TurnJoins(w, x, y);
    var e2;
    e2, v := PairReplies(w1, x, y);
    Joined(w, [Pick(x, false, false)] + [Join(y)], w1, e2, v);
    es := [Pick(x, false, false)] + [Join(y)] + e2;
  }

  lemma {:induction false} NoPruneCovered(s: State, es: seq<Event>, id: Id)
    requires forall e <- es :: !e.Prune?
    ensures PrunesAreCovered(s, es, id)
    decreases |es|
  {
    if es != [] && Enabled(s, es[0]) {
      assert es[0] in es && forall e <- es[1..] :: e in es;
      NoPruneCovered(After(s, es[0]), es[1..], id);
    }
  }

  /** Message 2 is interrupted and put off, so 1 runs and joins it; the run hangs and is abandoned
      with a notice; a crash right after that leaves 1 queued with an inflight row; after the
      restart 2 runs first, joins 1 and answers it again. No row is dropped on the way. */
  lemma {:induction false} HandoffCanBeAnsweredTwice() returns (es: seq<Event>, v: World)
    ensures Goes(START, es, v) && Reaches(INIT, es, v.s) && AnsweredTwice(v.s, 1)
    ensures PrunesAreCovered(INIT, es, 1)
  {
    var e1, w1 := AnsweredThenCrash();
    assert IsNext(w1, 2) by { assert w1.arrived[0] == 2; }
    var e2;
    e2, v := JoinedAndAnswered(w1, 2, 1);
    es := e1 + e2;
    Joined(START, e1, w1, e2, v);
    GoesReaches(START, es, v);
    NoPruneCovered(INIT, es, 1);
    assert 1 in v.s.replies[0].ids && 1 in v.s.replies[1].ids;
  }

  // ---- a message with two replies of its own ----

  lemma {:induction false} CleanAppend(s: State, es: seq<Event>, t: State, fs: seq<Event>, id: Id)
    requires Reaches(s, es, t) && JoinsAreClean(s, es, id) && JoinsAreClean(t, fs, id)
    ensures JoinsAreClean(s, es + fs, id)
    decreases |es|
  {
    if es == [] {
      assert es + fs == fs;
    } else {
      CleanAppend(After(s, es[0]), es[1..], t, fs, id);
      assert (es + fs)[1..] == es[1..] + fs;
    }
  }

  lemma {:induction false} WithoutJoins(s: State, es: seq<Event>, id: Id)
    requires forall e <- es :: e != Join(id)
    ensures JoinsAreClean(s, es, id)
  {
    forall i | 0 <= i < |es| ensures es[i] != Join(id) {
      assert es[i] in es;
    }
    NoJoinClean(s, es, id);
  }

  /** The intents and inflight rows of both targets, and the reply. */
  lemma {:induction false} PairSends(w: World, x: Id, y: Id) returns (es: seq<Event>, v: World)
    requires w.s.phase == Marking(x, {y}, [x, y], 0) && w.s.ledger == map[] && x != y
    ensures Goes(w, es, v) && forall e <- es :: e.Mark? || e.Send?
    ensures
      v == w.(s := w.s.(ledger := map[x := Inflight, y := Inflight], replies := w.s.replies + [Reply(x, {x, y})],
                        phase := Receipting(x, {y}, [x, y], 0)))
  {
    var w1 := Then(w, Mark);
    var w2 := Then(w1, Mark);
    assert w2.s.ledger == map[x := Inflight];
    var w3 := Then(w2, Mark);
    var w4 := Then(w3, Mark);
    assert w4.s.ledger == map[x := Inflight, y := Inflight];
    v := Then(w4, Send);
    assert Ids([x, y]) == {x, y};
    Steps2(w, Mark, w1, Mark, w2);
    Steps3(w2, Mark, w3, Mark, w4, Send, v);
    Joined(w, [Mark] + [Mark], w2, [Mark] + ([Mark] + [Send]), v);
    es := [Mark] + [Mark] + ([Mark] + ([Mark] + [Send]));
  }

  lemma {:induction false} PairReceipts(w: World, x: Id, y: Id) returns (es: seq<Event>, v: World)
    requires w.s.phase == Receipting(x, {y}, [x, y], 0) && w.s.ledger == map[x := Inflight, y := Inflight] && x != y
    ensures Goes(w, es, v) && es == [Receipt] + [Receipt]
    ensures v == w.(s := w.s.(ledger := map[x := Sent, y := Sent], phase := Receipting(x, {y}, [x, y], 2)))
  {
    var w1 := Then(w, Receipt);
    v := Then(w1, Receipt);
    assert v.s.ledger == map[x := Sent, y := Sent];
    Steps2(w, Receipt, w1, Receipt, v);
    es := [Receipt] + [Receipt];
  }

  lemma {:induction false} PairRetires(w: World, x: Id, y: Id) returns (v: World)
    requires w.s.phase == Receipting(x, {y}, [x, y], 2) && w.s.inbox == {x, y} && x != y
    ensures Goes(w, [Settle([y])], v) && v == w.(s := w.s.(phase := Archiving([y, x], x, {x, y}, Answered)))
  {
    assert Enumerates([y], w.s.phase.joined * w.s.inbox);
    v := Then(w, Settle([y]));
    assert [y] + [x] == [y, x] && {y} + {x} == {x, y};
    assert Goes(v, [], v);
    First(w, Settle([y]), v, [], v);
  }

  /** The receipts, and both messages leave the inbox. */
  lemma {:induction false} PairSettles(w: World, x: Id, y: Id) returns (es: seq<Event>, v: World)
    requires w.s.phase == Receipting(x, {y}, [x, y], 0) && w.s.inbox == {x, y} && x != y
    requires w.s.ledger == map[x := Inflight, y := Inflight]
    ensures Goes(w, es, v) && forall e <- es :: e.Receipt? || e.Settle? || e.Archive?
    ensures v == w.(s := w.s.(inbox := {}, ledger := map[x := Sent, y := Sent], phase := Releasing(x, {x, y})))
  {
    var e1, w1 := PairReceipts(w, x, y);
    var w2 := PairRetires(w1, x, y);
    var e3;
    e3, v := PairArchived(w2, x, y);
    Joined(w1, [Settle([y])], w2, e3, v);
    Joined(w, e1, w1, [Settle([y])] + e3, v);
    es := e1 + ([Settle([y])] + e3);
  }

  lemma {:induction false} PairArchived(w: World, x: Id, y: Id) returns (es: seq<Event>, v: World)
    requires w.s.phase == Archiving([y, x], x, {x, y}, Answered) && w.s.inbox == {x, y} && x != y
    ensures Goes(w, es, v) && es == [Archive] + [Archive]
    ensures v == w.(s := w.s.(inbox := {}, phase := Releasing(x, {x, y})))
  {
    var w1 := Then(w, Archive);
    assert [y, x][1..] == [x] && [x][1..] == [];
    v := Then(w1, Archive);
    assert v.s.inbox == {};
    Steps2(w, Archive, w1, Archive, v);
    es := [Archive] + [Archive];
  }

  lemma {:induction false} PairCleansUp(w: World, x: Id, y: Id) returns (es: seq<Event>, v: World)
    requires w.s.phase == Releasing(x, {x, y}) && w.s.ledger == map[x := Sent, y := Sent] && x != y
    ensures Goes(w, es, v) && es == [Release] + ([Prune(x)] + [Prune(y)])
    ensures v == w.(s := w.s.(claims := w.s.claims - {x}, ledger := map[], phase := Idle))
  {
    var w1 := Then(w, Release);
    var w2 := Then(w1, Prune(x));
    assert {x, y} - {x} == {y} && w2.s.ledger == map[y := Sent];
    v := Then(w2, Prune(y));
    assert {y} - {y} == {} && v.s.ledger == map[];
    Steps3(w, Release, w1, Prune(x), w2, Prune(y), v);
    es := [Release] + ([Prune(x)] + [Prune(y)]);
  }

  lemma {:induction false} PairFinishes(w: World, x: Id, y: Id) returns (v: World)
    requires w.s.phase == Running(x, {y}) && w.s.inbox == {x, y} && x != y
    ensures Goes(w, [Finish([y])], v) && v == w.(s := w.s.(phase := Marking(x, {y}, [x, y], 0)))
  {
    assert Enumerates([y], w.s.phase.joined * w.s.inbox);
    v := Then(w, Finish([y]));
    assert [x] + [y] == [x, y];
    assert Goes(v, [], v);
    First(w, Finish([y]), v, [], v);
  }

  lemma {:induction false} PairGoesOut(w: World, x: Id, y: Id) returns (es: seq<Event>, v: World)
    requires w.s.phase == Running(x, {y}) && w.s.inbox == {x, y} && w.s.ledger == map[] && x != y
    ensures Goes(w, es, v) && forall e <- es :: !e.Join?
    ensures
      v == w.(s := w.s.(ledger := map[x := Inflight, y := Inflight], replies := w.s.replies + [Reply(x, {x, y})],
                        phase := Receipting(x, {y}, [x, y], 0)))
  {
    var w1 := PairFinishes(w, x, y);
    var e2;
    e2, v := PairSends(w1, x, y);
    Joined(w, [Finish([y])], w1, e2, v);
    es := [Finish([y])] + e2;
  }

  lemma {:induction false} PairIsSettled(w: World, x: Id, y: Id) returns (es: seq<Event>, v: World)
    requires w.s.phase == Receipting(x, {y}, [x, y], 0) && w.s.inbox == {x, y} && x != y
    requires w.s.ledger == map[x := Inflight, y := Inflight]
    ensures Goes(w, es, v) && forall e <- es :: !e.Join?
    ensures v == w.(s := w.s.(inbox := {}, claims := w.s.claims - {x}, ledger := map[], phase := Idle))
  {
    var e1, w1 := PairSettles(w, x, y);
    var e2;
    e2, v := PairCleansUp(w1, x, y);
    Joined(w, e1, w1, e2, v);
    es := e1 + e2;
  }

  /** A whole turn of x that has joined y: both are answered, archived, and lose their rows. */
  lemma {:induction false} PairEnds(w: World, x: Id, y: Id) returns (es: seq<Event>, v: World)
    requires w.s.phase == Running(x, {y}) && w.s.inbox == {x, y} && w.s.ledger == map[] && x != y
    ensures Goes(w, es, v) && forall e <- es :: !e.Join?
    ensures
      v == w.(s := w.s.(inbox := {}, claims := w.s.claims - {x}, replies := w.s.replies + [Reply(x, {x, y})],
                        phase := Idle))
  {
    var e1, w1 := PairGoesOut(w, x, y);
    var e2;
    e2, v := PairIsSettled(w1, x, y);
    assert v.s.ledger == w.s.ledger;
    Joined(w, e1, w1, e2, v);
    es := e1 + e2;
  }

  /** The other one was put off, so y runs and joins it; then a crash. */
  lemma {:induction false} JoinThenCrash(w: World, x: Id, y: Id) returns (es: seq<Event>, v: World)
    requires w == World(TwoQueued(x, y), [x, y], {x}, {}) && x != y
    ensures Goes(w, es, v) && JoinsAreClean(w.s, es, x)
    ensures v == World(TwoQueued(x, y).(claims := map[y := Claim({y, x}, 2, false)], crashed := true), [x, y], {}, {y})
  {
    assert IsNext(w, y) by { assert w.arrived[1] == y; }
    var join := [Pick(y, false, false)] + [Join(x)];
    var w1 := TurnJoins(w, y, x);
    var e2;
    e2, v := Restart(w1, y);
    assert {x, y} + {y, x} == {x, y};
    Joined(w, join, w1, e2, v);
    es := join + e2;
    GoesReaches(w, join, w1);
    WithoutJoins(w1.s, e2, x);
    CleanAppend(w.s, join, w1.s, e2, x);
  }

  lemma {:induction false} JoinedThenCrash() returns (es: seq<Event>, v: World)
    ensures Goes(START, es, v) && JoinsAreClean(INIT, es, 1)
    ensures v == World(TwoQueued(1, 2).(claims := map[2 := Claim({2, 1}, 2, false)], crashed := true), [1, 2], {}, {2})
  {
    var e1 := Deferred(1, 2);
    var w1 := World(TwoQueued(1, 2), [1, 2], {1}, {});
    var e2;
    e2, v := JoinThenCrash(w1, 1, 2);
    Joined(START, e1, w1, e2, v);
    es := e1 + e2;
    GoesReaches(START, e1, w1);
    WithoutJoins(INIT, e1, 1);
    CleanAppend(INIT, e1, w1.s, e2, 1);
  }

  lemma {:induction false} SettledThenResent(w: World, x: Id, y: Id) returns (es: seq<Event>, v: World)
    requires w.s.phase == Running(x, {y}) && w.s.inbox == {x, y} && w.s.ledger == map[] && x != y
    requires w.s.claims.Keys == {x, y} && w.s.claims[y] == Claim({y, x}, 2, false)
    ensures Goes(w, es, v) && forall e <- es :: !e.Join?
    ensures v.s.phase.Idle? && v.s.inbox == {x, y} && v.s.ledger == map[] && v.arrived == w.arrived && v.late == {}
    ensures v.s.replies == w.s.replies + [Reply(x, {x, y})]
  {
    var e1, w1 := PairEnds(w, x, y);
    assert w1.s.claims.Keys == {y};
    var e2;
    e2, v := Restart(w1, y);
    Joined(w, e1, w1, e2, v);
    es := e1 + e2;
  }

  /** After that crash 1 runs first, joins 2 and settles completely; a second crash, and the sweep
      sends both again for 2's claim. */
  lemma {:induction false} RunsAndIsResent(w: World, x: Id, y: Id) returns (es: seq<Event>, v: World)
    requires w.s == TwoQueued(x, y).(claims := map[y := Claim({y, x}, 2, false)], crashed := true)
    requires w.arrived == [x, y] && w.late == {} && x != y
    ensures Goes(w, es, v) && forall e <- es :: e != Join(x)
    ensures v.s.phase.Idle? && v.s.inbox == {x, y} && v.s.ledger == map[] && v.s.replies == [Reply(x, {x, y})]
    ensures IsNext(v, x)
  {
    assert IsNext(w, x) by { assert w.arrived[0] == x; }
    var join := [Pick(x, false, false)] + [Join(y)];
    var w1 := TurnJoins(w, x, y);
    var e2;
    e2, v := SettledThenResent(w1, x, y);
    assert IsNext(v, x) by { assert v.arrived[0] == x; }
    Joined(w, join, w1, e2, v);
    es := join + e2;
  }

  /** Message 1 is joined to the turn of 2; after a crash it runs first, joins 2, answers both and
      settles completely; 2's claim still lists it, so the sweep after a second crash sends it again,
      and with its rows gone it gets a second reply of its own. Every join of it was clean. */
  lemma {:induction false} OwnReplyCanRepeat() returns (es: seq<Event>, v: World)
    ensures Goes(START, es, v) && Reaches(INIT, es, v.s) && OwnTwice(v.s, 1)
    ensures JoinsAreClean(INIT, es, 1)
  {
    var e1, w1 := JoinedThenCrash();
    var e2, w2 := RunsAndIsResent(w1, 1, 2);
    var e3;
    e3, v := JoinedAndAnswered(w2, 1, 2);
    Joined(w1, e2, w2, e3, v);
    Joined(START, e1, w1, e2 + e3, v);
    es := e1 + (e2 + e3);
    GoesReaches(START, es, v);
    GoesReaches(START, e1, w1);
    WithoutJoins(w1.s, e2 + e3, 1);
    CleanAppend(INIT, e1, w1.s, e2 + e3, 1);
    assert v.s.replies[0].own == 1 && v.s.replies[1].own == 1;
  }
}
