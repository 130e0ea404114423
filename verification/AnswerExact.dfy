/** The two guards are exact: without them a second answer is reachable, as far as the code can see. */
module AnswerExact {
  import opened Delivery
  import opened AnswerOnce

  ghost predicate Guarded(s: State, es: seq<Event>, id: Id) {
    PrunesAreCovered(s, es, id) && JoinsAreClean(s, es, id)
  }

  /** What the guards ask of one step. */
  predicate Allowed(s: State, e: Event, id: Id) {
    (e == Prune(id) ==> !Resendable(s, id)) && (e == Join(id) ==> !Settled(s, id))
  }

  /** Some run from the start that keeps the guards for id leads here. */
  ghost predicate Reachable(s: State, id: Id) {
    exists es :: Reaches(INIT, es, s) && Guarded(INIT, es, id)
  }

  /** Some future that keeps the guards for id answers id twice. */
  ghost predicate SecondAnswerAhead(s: State, id: Id) {
    exists es, t :: Reaches(s, es, t) && Guarded(s, es, id) && AnsweredTwice(t, id)
  }

  /** What the joining code can see: the queue, the ledger, the turn. */
  predicate SameView(s: State, t: State) {
    s.inbox == t.inbox && s.ledger == t.ledger && s.phase == t.phase
  }

  lemma {:induction false} GuardsExtend(s: State, es: seq<Event>, t: State, e: Event, id: Id)
    requires Reaches(s, es, t) && Guarded(s, es, id) && Enabled(t, e) && Allowed(t, e, id)
    ensures Guarded(s, es + [e], id)
    decreases |es|
  {
    if es == [] {
      assert es + [e] == [e];
      assert PrunesAreCovered(After(t, e), [], id) && JoinsAreClean(After(t, e), [], id);
      assert [e][1..] == [];
    } else {
      GuardsExtend(After(s, es[0]), es[1..], t, e, id);
      assert (es + [e])[1..] == es[1..] + [e];
    }
  }

  lemma {:induction false} OneMore(s: State, e: Event, id: Id)
    requires Reachable(s, id) && Enabled(s, e) && Allowed(s, e, id)
    ensures Reachable(After(s, e), id)
  {
    var es :| Reaches(INIT, es, s) && Guarded(INIT, es, id);
    Extend(INIT, es, s, e);
    GuardsExtend(INIT, es, s, e, id);
  }

  lemma {:induction false} ReachableIsSound(s: State, id: Id)
    requires Reachable(s, id)
    ensures Inv(s) && Recorded(s, id) && Fresh(s, id)
  {
    var es :| Reaches(INIT, es, s) && Guarded(INIT, es, id);
    OnceRun(INIT, es, s, id);
  }

  // ---- a reply on its way goes out ----

  lemma {:induction false} SetToSeq(ids: set<Id>) returns (xs: seq<Id>)
    ensures Enumerates(xs, ids)
    decreases |ids|
  {
    if ids == {} {
      xs := [];
    } else {
      var x :| x in ids;
      var rest := SetToSeq(ids - {x});
      xs := [x] + rest;
    }
  }

  lemma {:induction false} QuietIsGuarded(s: State, es: seq<Event>, id: Id)
    requires forall i :: 0 <= i < |es| ==> !es[i].Join? && !es[i].Prune?
    ensures Guarded(s, es, id)
    decreases |es|
  {
    if es != [] && Enabled(s, es[0]) {
      assert forall i :: 0 <= i < |es[1..]| ==> es[1..][i] == es[i + 1];
      QuietIsGuarded(After(s, es[0]), es[1..], id);
    }
  }

  /** Left alone, a reply being prepared goes out to all its targets. */
  lemma {:induction false} PreparedReplyLeaves(s: State) returns (es: seq<Event>, t: State)
    requires s.phase.Marking? && s.phase.done <= 2 * |s.phase.targets|
    ensures Reaches(s, es, t) && forall i :: 0 <= i < |es| ==> es[i].Mark? || es[i].Send?
    ensures t.replies == s.replies + [Reply(s.phase.msg, Ids(s.phase.targets))]
    decreases 2 * |s.phase.targets| - (if s.phase.Marking? then s.phase.done else 0)
  {
    if s.phase.done == 2 * |s.phase.targets| {
      es, t := [Send], SendStep(s);
      assert Reaches(t, [], t);
    } else {
      var rest;
      rest, t := PreparedReplyLeaves(MarkStep(s));
      es := [Mark] + rest;
    }
  }

  lemma {:induction false} AnsweredAgain(s: State, t: State, r: Reply, id: Id)
    requires IsAnswered(s, id) && t.replies == s.replies + [r] && id in r.ids
    ensures AnsweredTwice(t, id)
  {
    var i :| 0 <= i < |s.replies| && id in s.replies[i].ids;
    assert t.replies[i] == s.replies[i] && t.replies[|s.replies|] == r;
  }

  /** A turn that has, or has joined, a message already answered leads to a second answer. */
  lemma {:induction false} RunningAnsweredRepeats(s: State, id: Id)
    requires s.phase.Running? && IsAnswered(s, id)
    requires id == s.phase.msg || (id in s.phase.joined && id in s.inbox)
    ensures SecondAnswerAhead(s, id)
  {
    var order := SetToSeq(s.phase.joined * s.inbox);
    var m := After(s, Finish(order));
    var rest, t := PreparedReplyLeaves(m);
    var es := [Finish(order)] + rest;
    assert es[1..] == rest;
    QuietIsGuarded(s, es, id);
    assert id in Ids(m.phase.targets) by {
      assert forall x :: x in [s.phase.msg] + order <==> x == s.phase.msg || x in order;
    }
    AnsweredAgain(m, t, Reply(m.phase.msg, Ids(m.phase.targets)), id);
    assert Reaches(s, es, t);
  }

  // ---- building a state with a given view ----

  lemma {:induction false} TakeTurn(s: State, id: Id, x: Id) returns (t: State)
    requires Reachable(s, id) && s.phase.Idle? && x !in s.seen && x !in s.ledger
    ensures Reachable(t, id) && t.phase == Marking(x, {}, [x], 0)
    ensures t.inbox == s.inbox + {x} && t.seen == s.seen + {x}
    ensures t.ledger == s.ledger && t.replies == s.replies
  {
    OneMore(s, Arrive(x), id);
    var a := After(s, Arrive(x));
    OneMore(a, Pick(x, false, false), id);
    var b := After(a, Pick(x, false, false));
    assert Enumerates([], b.phase.joined * b.inbox);
    OneMore(b, Finish([]), id);
    t := After(b, Finish([]));
    assert [x] + [] == [x];
  }

  /** The turn of x is cut off by a crash after so many of its steps. */
  lemma {:induction false} CutOff(s: State, id: Id) returns (t: State)
    requires Reachable(s, id)
    ensures Reachable(t, id) && t == s.(phase := Idle, crashed := true)
  {
    OneMore(s, Crash, id);
    OneMore(After(s, Crash), Boot, id);
    t := After(After(s, Crash), Boot);
  }

  lemma {:induction false} MarkFull(s: State, id: Id, x: Id) returns (t: State)
    requires Reachable(s, id) && s.phase == Marking(x, {}, [x], 0) && x !in s.ledger
    ensures Reachable(t, id) && t == s.(phase := Marking(x, {}, [x], 2), ledger := s.ledger[x := Inflight])
  {
    OneMore(s, Mark, id);
    var a := MarkStep(s);
    OneMore(a, Mark, id);
    t := MarkStep(a);
    assert t.ledger == s.ledger[x := Inflight];
  }

  /** A message that arrives, takes its turn, replies unless the row is to rule it out, and leaves a
      row with this status. */
  lemma {:induction false} MakeRow(s: State, id: Id, x: Id, status: Status) returns (t: State)
    requires Reachable(s, id) && s.phase.Idle? && x !in s.seen && x !in s.ledger && status != Uncertain
    ensures Reachable(t, id) && t.phase.Idle?
    ensures t.inbox == s.inbox + {x} && t.seen == s.seen + {x} && t.ledger == s.ledger[x := status]
    ensures forall y :: (y == x && status != Pending) || IsAnswered(s, y) ==> IsAnswered(t, y)
  {
    var m := TakeTurn(s, id, x);
    if status == Pending {
      OneMore(m, Mark, id);
      t := CutOff(MarkStep(m), id);
      SameReplies(s, t);
    } else {
      t := MakeSettledRow(m, id, x, status);
      SameReplies(s, m);
    }
  }

  lemma {:induction false} MakeSettledRow(m: State, id: Id, x: Id, status: Status) returns (t: State)
    requires Reachable(m, id) && m.phase == Marking(x, {}, [x], 0) && x !in m.ledger && status in {Inflight, Sent}
    ensures Reachable(t, id) && t.phase.Idle?
    ensures t.inbox == m.inbox && t.seen == m.seen && t.ledger == m.ledger[x := status]
    ensures forall y :: y == x || IsAnswered(m, y) ==> IsAnswered(t, y)
  {
    var full := MarkFull(m, id, x);
    OneMore(full, Send, id);
    var sent := SendStep(full);
    SendAnswers(full);
    SameReplies(m, full);
    if status == Sent {
      OneMore(sent, Receipt, id);
      t := CutOff(ReceiptStep(sent), id);
      assert t.ledger == m.ledger[x := Sent];
    } else {
      t := CutOff(sent, id);
    }
    SameReplies(sent, t);
  }

  /** The ledger with these rows of another one added. */
  ghost predicate RowsAdded(was: map<Id, Status>, now: map<Id, Status>, rows: map<Id, Status>, todo: set<Id>) {
    && now.Keys == was.Keys + todo && todo <= rows.Keys && todo !! was.Keys
    && (forall x :: x in todo ==> now[x] == rows[x])
    && forall x :: x in was ==> now[x] == was[x]
  }

  lemma {:induction false} RowsStep(was: map<Id, Status>, now: map<Id, Status>, rows: map<Id, Status>,
                                    todo: set<Id>, x: Id)
    requires x in todo && todo <= rows.Keys && todo !! was.Keys
    requires RowsAdded(was[x := rows[x]], now, rows, todo - {x})
    ensures RowsAdded(was, now, rows, todo)
  {
  }

  lemma {:induction false} SetStep(a: set<Id>, todo: set<Id>, x: Id)
    requires x in todo
    ensures a + {x} + (todo - {x}) == a + todo
  {
  }

  lemma {:induction false} MakeRows(s: State, id: Id, rows: map<Id, Status>, todo: set<Id>) returns (t: State)
    requires Reachable(s, id) && s.phase.Idle? && todo <= rows.Keys && todo !! s.seen && todo !! s.ledger.Keys
    requires forall x :: x in todo ==> rows[x] != Uncertain
    ensures Reachable(t, id) && t.phase.Idle?
    ensures t.inbox == s.inbox + todo && t.seen == s.seen + todo && RowsAdded(s.ledger, t.ledger, rows, todo)
    ensures forall x :: (x in todo && rows[x] != Pending) || IsAnswered(s, x) ==> IsAnswered(t, x)
    decreases |todo|
  {
    if todo == {} {
      t := s;
    } else {
      var x :| x in todo;
      var a := MakeRow(s, id, x, rows[x]);
      SetStep(s.inbox, todo, x);
      SetStep(s.seen, todo, x);
      t := MakeRows(a, id, rows, todo - {x});
      RowsStep(s.ledger, t.ledger, rows, todo, x);
    }
  }

  lemma {:induction false} MakeArrivals(s: State, id: Id, todo: set<Id>) returns (t: State)
    requires Reachable(s, id) && todo !! s.seen
    ensures Reachable(t, id) && t.inbox == s.inbox + todo && t.seen == s.seen + todo
    ensures t.ledger == s.ledger && t.replies == s.replies && t.phase == s.phase
    decreases |todo|
  {
    if todo == {} {
      t := s;
    } else {
      var x :| x in todo;
      OneMore(s, Arrive(x), id);
      SetStep(s.inbox, todo, x);
      SetStep(s.seen, todo, x);
      t := MakeArrivals(After(s, Arrive(x)), id, todo - {x});
    }
  }

  lemma {:induction false} MakeJoins(s: State, id: Id, m: Id, todo: set<Id>) returns (t: State)
    requires Reachable(s, id) && s.phase.Running? && s.phase.msg == m && m in s.claims
    requires todo <= s.inbox && m !in todo && id !in todo && todo !! s.phase.joined
    ensures Reachable(t, id) && t.phase == Running(m, s.phase.joined + todo) && m in t.claims
    ensures t.inbox == s.inbox && t.ledger == s.ledger && t.replies == s.replies
    decreases |todo|
  {
    if todo == {} {
      t := s;
      assert s.phase.joined + todo == s.phase.joined;
    } else {
      var x :| x in todo;
      OneMore(s, Join(x), id);
      SetStep(s.phase.joined, todo, x);
      t := MakeJoins(JoinStep(s, x), id, m, todo - {x});
    }
  }

  lemma {:induction false} MakeCancellations(s: State, id: Id, todo: set<Id>) returns (t: State)
    requires Reachable(s, id) && todo <= s.inbox
    ensures Reachable(t, id) && t.inbox == s.inbox - todo
    ensures t.ledger == s.ledger && t.replies == s.replies && t.phase == s.phase && t.claims == s.claims
    decreases |todo|
  {
    if todo == {} {
      t := s;
    } else {
      var x :| x in todo;
      OneMore(s, Withdraw(x, false), id);
      t := MakeCancellations(After(s, Withdraw(x, false)), id, todo - {x});
    }
  }

  /** Every view of a running turn is also the view of a state in which each message with a settled
      row has been answered. */
  lemma {:induction false} AnsweredTwin(s: State, id: Id) returns (t: State)
    requires Inv(s) && s.phase.Running? && id !in s.phase.joined + {s.phase.msg}
    ensures Reachable(t, id) && SameView(s, t) && s.phase.msg in t.claims
    ensures forall x :: Settled(s, x) ==> IsAnswered(t, x)
  {
    var m, joined := s.phase.msg, s.phase.joined;
    assert Reaches(INIT, [], INIT) && Guarded(INIT, [], id);
    var rows := s.ledger.Keys;
    var a := MakeRows(INIT, id, s.ledger, rows);
    assert a.ledger == s.ledger && a.inbox == rows;
    var others := s.inbox + joined + {m} - rows;
    var b := MakeArrivals(a, id, others);
    OneMore(b, Pick(m, false, false), id);
    var c := After(b, Pick(m, false, false));
    var d := MakeJoins(c, id, m, joined);
    assert {} + joined == joined;
    t := MakeCancellations(d, id, d.inbox - s.inbox);
    assert t.inbox == s.inbox;
    SameReplies(a, t);
  }

  // ---- when a join is safe ----

  lemma {:induction false} CleanJoinIsSafe(s: State, id: Id)
    requires Reachable(s, id) && Enabled(s, Join(id)) && !Settled(s, id)
    ensures !SecondAnswerAhead(After(s, Join(id)), id)
  {
    ReachableIsSound(s, id);
    var j := After(s, Join(id));
    StepKeeps(s, Join(id));
    RecordedStep(s, Join(id), id);
    FreshStep(s, Join(id), id);
    forall es, t | Reaches(j, es, t) && Guarded(j, es, id) ensures !AnsweredTwice(t, id) {
      OnceRun(j, es, t, id);
    }
  }

  lemma {:induction false} SettledJoinMayRepeat(s: State, id: Id) returns (t: State)
    requires Inv(s) && Enabled(s, Join(id)) && Settled(s, id)
    ensures Reachable(t, id) && SameView(s, t) && Enabled(t, Join(id)) && SecondAnswerAhead(After(t, Join(id)), id)
  {
    t := AnsweredTwin(s, id);
    var j := After(t, Join(id));
    SameReplies(t, j);
    RunningAnsweredRepeats(j, id);
  }

  /** A second answer to id can follow a join of it in some state that looks just like this one. */
  ghost predicate JoinMayRepeat(s: State, id: Id) {
    exists t :: Reachable(t, id) && SameView(s, t) && Enabled(t, Join(id)) && SecondAnswerAhead(After(t, Join(id)), id)
  }

  /** Exactly when a join is safe, by what the code can look at: the handoff's own row must not say
      that a reply left or may have left. */
  lemma {:induction false} JoinIsSafeIffUnsettled(s: State, id: Id)
    requires Reachable(s, id) && Enabled(s, Join(id))
    ensures JoinMayRepeat(s, id) <==> Settled(s, id)
  {
    ReachableIsSound(s, id);
    if Settled(s, id) {
      var t := SettledJoinMayRepeat(s, id);
      assert JoinMayRepeat(s, id);
    } else if JoinMayRepeat(s, id) {
      var t :| Reachable(t, id) && SameView(s, t) && Enabled(t, Join(id)) && SecondAnswerAhead(After(t, Join(id)), id);
      CleanJoinIsSafe(t, id);
    }
  }

  /** With a receipt there is no doubt: joining repeats the answer in this very state. */
  lemma {:induction false} SentJoinRepeats(s: State, id: Id)
    requires Inv(s) && Enabled(s, Join(id)) && id in s.ledger && s.ledger[id] == Sent
    ensures SecondAnswerAhead(After(s, Join(id)), id)
  {
    SameReplies(s, After(s, Join(id)));
    RunningAnsweredRepeats(After(s, Join(id)), id);
  }

  // ---- when dropping rows is safe ----

  lemma {:induction false} ResentRuns(s: State, c: Id, id: Id)
    requires c in s.claims && s.claims[c].budget > 0 && id in s.claims[c].inputs
    requires id !in s.inbox && id !in s.ledger && IsAnswered(s, id)
    ensures SecondAnswerAhead(s, id)
  {
    var a := After(s, Crash);
    var b := After(a, Redeliver(c, {id}));
    var d := After(b, Boot);
    var r := After(d, Pick(id, false, false));
    SameReplies(s, r);
    RunningAnsweredRepeats(r, id);
    var rest, t :| Reaches(r, rest, t) && Guarded(r, rest, id) && AnsweredTwice(t, id);
    Before(d, Pick(id, false, false), rest, t, id);
    Before(b, Boot, [Pick(id, false, false)] + rest, t, id);
    Before(a, Redeliver(c, {id}), [Boot] + ([Pick(id, false, false)] + rest), t, id);
    Before(s, Crash, [Redeliver(c, {id})] + ([Boot] + ([Pick(id, false, false)] + rest)), t, id);
  }

  lemma {:induction false} Before(s: State, e: Event, es: seq<Event>, t: State, id: Id)
    requires Enabled(s, e) && Allowed(s, e, id) && Reaches(After(s, e), es, t) && Guarded(After(s, e), es, id)
    ensures Reaches(s, [e] + es, t) && Guarded(s, [e] + es, id)
  {
    assert ([e] + es)[1..] == es;
  }

  lemma {:induction false} CoveredPruneIsSafe(s: State, id: Id)
    requires Reachable(s, id) && Enabled(s, Prune(id)) && (!Resendable(s, id) || !IsAnswered(s, id))
    ensures !SecondAnswerAhead(After(s, Prune(id)), id)
  {
    ReachableIsSound(s, id);
    var p := After(s, Prune(id));
    StepKeeps(s, Prune(id));
    SameOwn(s, p, id);
    assert Recorded(p, id) by {
      if Resendable(p, id) { assert Resendable(s, id); }
    }
    forall es, t | Reaches(p, es, t) && Guarded(p, es, id) ensures !AnsweredTwice(t, id) {
      OnceRun(p, es, t, id);
    }
  }

  /** Exactly when dropping the rows of an answered message is safe: when no unsettled turn with budget
      left lists it. */
  lemma {:induction false} PruneIsSafeIffSpent(s: State, id: Id)
    requires Reachable(s, id) && Enabled(s, Prune(id)) && IsAnswered(s, id)
    ensures SecondAnswerAhead(After(s, Prune(id)), id) <==> Resendable(s, id)
  {
    if Resendable(s, id) {
      var c :| c in s.claims && s.claims[c].budget > 0 && id in s.claims[c].inputs;
      ReachableIsSound(s, id);
      SameOwn(s, After(s, Prune(id)), id);
      ResentRuns(After(s, Prune(id)), c, id);
    } else {
      CoveredPruneIsSafe(s, id);
    }
  }
}
