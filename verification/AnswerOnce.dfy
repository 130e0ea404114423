/** When a message is answered at most once, over every run with crashes and re-sent inputs. */
module AnswerOnce {
  import opened Delivery

  predicate AnsweredTwice(s: State, id: Id) {
    exists i, k :: 0 <= i < k < |s.replies| && id in s.replies[i].ids && id in s.replies[k].ids
  }

  /** The message has had two replies from turns of its own. */
  predicate OwnTwice(s: State, id: Id) {
    exists i, k :: 0 <= i < k < |s.replies| && s.replies[i].own == id && s.replies[k].own == id
  }

  /** Every time the rows of id are dropped no unsettled turn with budget left lists it, so no sweep can re-send it. */
  ghost predicate PrunesAreCovered(s: State, es: seq<Event>, id: Id)
    decreases |es|
  {
    es != [] && Enabled(s, es[0]) ==>
      (es[0] == Prune(id) ==> !Resendable(s, id)) && PrunesAreCovered(After(s, es[0]), es[1..], id)
  }

  /** Every time id is joined to a turn, no row of its own says that a reply left or may have left. */
  ghost predicate JoinsAreClean(s: State, es: seq<Event>, id: Id)
    decreases |es|
  {
    es != [] && Enabled(s, es[0]) ==>
      (es[0] == Join(id) ==> !Settled(s, id)) && JoinsAreClean(After(s, es[0]), es[1..], id)
  }

  // ---- an answer that could be repeated is on record ----

  predicate Live(s: State, id: Id) {
    id in s.inbox || Resendable(s, id)
  }

  predicate Recorded(s: State, id: Id) {
    IsAnswered(s, id) && Live(s, id) ==> Settled(s, id)
  }

  lemma {:induction false} AnsweredIsSeen(s: State, id: Id)
    requires KnownIds(s) && IsAnswered(s, id)
    ensures id in s.seen
  {
  }

  /** Only an arrival makes a message live that was not. */
  lemma {:induction false} LiveShrinks(s: State, e: Event, id: Id)
    requires Enabled(s, e) && e != Arrive(id) && Live(After(s, e), id)
    ensures Live(s, id)
  {
    var t := After(s, e);
    if id !in t.inbox {
      var c :| c in t.claims && t.claims[c].budget > 0 && id in t.claims[c].inputs;
      if e.Pick? && c == e.id {
      } else if e.Join? && c == s.phase.msg {
      } else {
        assert c in s.claims && s.claims[c].budget > 0 && id in s.claims[c].inputs;
      }
    }
  }

  lemma {:induction false} SettledStays(s: State, e: Event, id: Id)
    requires Enabled(s, e) && e != Prune(id) && Settled(s, id)
    ensures Settled(After(s, e), id)
  {
  }

  lemma {:induction false} RecordedStep(s: State, e: Event, id: Id)
    requires Inv(s) && Recorded(s, id) && Enabled(s, e) && (e == Prune(id) ==> !Resendable(s, id))
    ensures Recorded(After(s, e), id)
  {
    var t := After(s, e);
    if e.Send? {
      SendAnswers(s);
      SendPhase(s);
    } else {
      SameReplies(s, t);
    }
    if IsAnswered(t, id) && Live(t, id) && e != Prune(id) {
      if e == Arrive(id) {
        AnsweredIsSeen(t, id);
      } else {
        LiveShrinks(s, e, id);
        if Settled(s, id) { SettledStays(s, e, id); }
      }
    }
  }

  // ---- its own turn's reply ----

  predicate OwnSent(s: State, id: Id) {
    exists i :: 0 <= i < |s.replies| && s.replies[i].own == id
  }

  predicate TakesTurn(s: State, id: Id) {
    (s.phase.Running? || s.phase.Marking?) && s.phase.msg == id
  }

  ghost predicate OwnOk(s: State, id: Id) {
    !OwnTwice(s, id) && (TakesTurn(s, id) ==> !OwnSent(s, id))
  }

  lemma {:induction false} OwnSend(s: State, id: Id)
    requires Enabled(s, Send) && OwnOk(s, id)
    ensures OwnOk(SendStep(s), id)
  {
    var t, n := SendStep(s), |s.replies|;
    assert forall i :: 0 <= i < n ==> t.replies[i] == s.replies[i];
    forall i, k | 0 <= i < k <= n && t.replies[i].own == id ensures t.replies[k].own != id {
      assert OwnSent(s, id);
    }
  }

  lemma {:induction false} SameOwn(s: State, t: State, id: Id)
    requires t.replies == s.replies
    ensures OwnSent(t, id) <==> OwnSent(s, id)
    ensures OwnTwice(t, id) <==> OwnTwice(s, id)
    ensures AnsweredTwice(t, id) <==> AnsweredTwice(s, id)
    ensures IsAnswered(t, id) <==> IsAnswered(s, id)
  {
  }

  lemma {:induction false} OwnStep(s: State, e: Event, id: Id)
    requires Inv(s) && Recorded(s, id) && OwnOk(s, id) && Enabled(s, e)
    ensures OwnOk(After(s, e), id)
  {
    if e.Send? {
      OwnSend(s, id);
    } else {
      var t := After(s, e);
      SameOwn(s, t, id);
      if TakesTurn(t, id) && !TakesTurn(s, id) {
        assert e.Pick? && e.id == id && !Settled(s, id);
        assert !IsAnswered(s, id);
      }
    }
  }

  lemma {:induction false} OwnRun(s: State, es: seq<Event>, t: State, id: Id)
    requires Inv(s) && Recorded(s, id) && OwnOk(s, id) && Reaches(s, es, t) && PrunesAreCovered(s, es, id)
    ensures Inv(t) && Recorded(t, id) && OwnOk(t, id)
    decreases |es|
  {
    if es != [] {
      StepKeeps(s, es[0]);
      RecordedStep(s, es[0], id);
      OwnStep(s, es[0], id);
      OwnRun(After(s, es[0]), es[1..], t, id);
    }
  }

  /** Whatever crashes, sweeps, arrivals, cancellations and joins happen: a message whose rows are
      only dropped when nothing can re-send it gets at most one ledgered reply from turns of its
      own, and is never dispatched to run again once it has been answered. */
  lemma {:induction false} CoveredOwnReplyOnce(es: seq<Event>, t: State, id: Id)
    requires Reaches(INIT, es, t) && PrunesAreCovered(INIT, es, id)
    ensures !OwnTwice(t, id)
    ensures id in t.inbox && IsAnswered(t, id) ==> Settled(t, id)
    ensures TakesTurn(t, id) ==> !OwnSent(t, id)
  {
    OwnRun(INIT, es, t, id);
  }

  // ---- a message never joined to another turn ----

  /** Only its own claim and its own turn concern id, and its claim goes before its rows. */
  ghost predicate Unshared(s: State, id: Id) {
    && (forall c :: c in s.claims && id in s.claims[c].inputs ==> c == id)
    && match s.phase
       case Running(_, joined) => id !in joined
       case Marking(_, joined, _, _) => id !in joined
       case Receipting(_, joined, _, _) => id !in joined
       case Archiving(_, own, rows, _) => id in rows ==> own == id
       case Releasing(own, rows) => id in rows ==> own == id
       case Pruning(rows) => id in rows ==> id !in s.claims
       case _ => true
  }

  lemma {:induction false} UnsharedStep(s: State, e: Event, id: Id)
    requires Unshared(s, id) && Enabled(s, e) && e != Join(id)
    ensures Unshared(After(s, e), id)
    ensures e == Prune(id) ==> !Resendable(s, id)
  {
  }

  lemma {:induction false} UnsharedCovered(s: State, es: seq<Event>, t: State, id: Id)
    requires Unshared(s, id) && Reaches(s, es, t)
    requires forall i :: 0 <= i < |es| ==> es[i] != Join(id)
    ensures PrunesAreCovered(s, es, id)
    decreases |es|
  {
    if es != [] {
      UnsharedStep(s, es[0], id);
      assert forall i :: 0 <= i < |es[1..]| ==> es[1..][i] == es[i + 1];
      UnsharedCovered(After(s, es[0]), es[1..], t, id);
    }
  }

  /** No crash schedule and no sweep gives a message that is not joined to another turn a second
      ledgered reply of its own: its claim is released before its rows are dropped. */
  lemma {:induction false} OwnReplyAtMostOnce(es: seq<Event>, t: State, id: Id)
    requires Reaches(INIT, es, t) && forall i :: 0 <= i < |es| ==> es[i] != Join(id)
    ensures !OwnTwice(t, id) && !AnsweredTwice(t, id)
  {
    UnsharedCovered(INIT, es, t, id);
    NoJoinClean(INIT, es, id);
    OnceRun(INIT, es, t, id);
    CoveredOwnReplyOnce(es, t, id);
  }

  lemma {:induction false} NoJoinClean(s: State, es: seq<Event>, id: Id)
    requires forall i :: 0 <= i < |es| ==> es[i] != Join(id)
    ensures JoinsAreClean(s, es, id)
    decreases |es|
  {
    if es != [] && Enabled(s, es[0]) {
      assert forall i :: 0 <= i < |es[1..]| ==> es[1..][i] == es[i + 1];
      NoJoinClean(After(s, es[0]), es[1..], id);
    }
  }

  // ---- answered once, in its own turn or joined to another ----

  ghost predicate Fresh(s: State, id: Id) {
    && !AnsweredTwice(s, id)
    && (s.phase.Running? && id in s.phase.joined + {s.phase.msg} ==> !IsAnswered(s, id))
    && (s.phase.Marking? && id in s.phase.targets ==> !IsAnswered(s, id))
  }

  lemma {:induction false} FreshSend(s: State, id: Id)
    requires Fresh(s, id) && Enabled(s, Send)
    ensures Fresh(SendStep(s), id)
  {
    var t, n := SendStep(s), |s.replies|;
    forall i, k | 0 <= i < k <= n && id in t.replies[i].ids ensures id !in t.replies[k].ids {
      assert t.replies[i] == s.replies[i] && IsAnswered(s, id);
      assert !AnsweredTwice(s, id);
      if k < n { assert t.replies[k] == s.replies[k]; }
    }
  }

  lemma {:induction false} FreshStep(s: State, e: Event, id: Id)
    requires Inv(s) && Recorded(s, id) && Fresh(s, id) && Enabled(s, e)
    requires e == Join(id) ==> !Settled(s, id)
    ensures Fresh(After(s, e), id)
  {
    if e.Send? {
      FreshSend(s, id);
    } else {
      SameOwn(s, After(s, e), id);
      if e.Finish? {
        assert forall x :: x in [s.phase.msg] + e.order <==> x == s.phase.msg || x in e.order;
      }
    }
  }

  lemma {:induction false} OnceRun(s: State, es: seq<Event>, t: State, id: Id)
    requires Inv(s) && Recorded(s, id) && Fresh(s, id) && Reaches(s, es, t)
    requires PrunesAreCovered(s, es, id) && JoinsAreClean(s, es, id)
    ensures Inv(t) && Recorded(t, id) && Fresh(t, id)
    decreases |es|
  {
    if es != [] {
      StepKeeps(s, es[0]);
      RecordedStep(s, es[0], id);
      FreshStep(s, es[0], id);
      OnceRun(After(s, es[0]), es[1..], t, id);
    }
  }

  /** With both guards no message is answered twice at all. */
  lemma {:induction false} GuardedAnsweredOnce(es: seq<Event>, t: State, id: Id)
    requires Reaches(INIT, es, t) && PrunesAreCovered(INIT, es, id) && JoinsAreClean(INIT, es, id)
    ensures !AnsweredTwice(t, id)
  {
    OnceRun(INIT, es, t, id);
  }
}
