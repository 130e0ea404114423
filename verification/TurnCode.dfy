/** The code of one turn's dispatch, reply and settling, each write a step of the machine. */
module TurnCode {
  import opened Delivery

  lemma {:induction false} Glue(s: State, es1: seq<Event>, s2: State, es3: seq<Event>, t: State)
    requires Reaches(s, es1, s2) && Enabled(s2, Send) && Reaches(SendStep(s2), es3, t)
    ensures Reaches(s, es1 + [Send] + es3, t)
  {
    assert ([Send] + es3)[1..] == es3;
    ReachesAppend(s, es1, s2, [Send] + es3, t);
    assert es1 + [Send] + es3 == es1 + ([Send] + es3);
  }

  /** Intent and inflight row of one target. */
  lemma {:induction false} MarkBoth(s: State, es: seq<Event>, t: State, i: nat) returns (fs: seq<Event>, u: State)
    requires Reaches(s, es, t) && t.phase.Marking? && t.phase.done == 2 * i < 2 * |t.phase.targets|
    ensures Reaches(s, fs, u)
    ensures
      var x := t.phase.targets[i];
      u == t.(ledger := InflightRow(BeginRow(t.ledger, x), x),
              phase := Marking(t.phase.msg, t.phase.joined, t.phase.targets, 2 * (i + 1)))
  {
    Extend(s, es, t, Mark);
    Extend(s, es + [Mark], MarkStep(t), Mark);
    fs, u := es + [Mark] + [Mark], MarkStep(MarkStep(t));
  }

  lemma {:induction false} PruneNext(t: State, left: set<Id>, id: Id)
    requires t.phase == Pruning(left) && id in left
    ensures After(t, Prune(id))
      == t.(ledger := t.ledger - {id}, phase := if left - {id} == {} then Idle else Pruning(left - {id}))
  {
  }

  lemma {:induction false} OneLess(ledger: map<Id, Status>, rows: set<Id>, left: set<Id>, id: Id)
    requires id in left && left <= rows
    ensures ledger - (rows - left) - {id} == ledger - (rows - (left - {id}))
  {
  }

  /** The durable state of one bot, and the code of one turn's ending. */
  class Bot {
    var inbox: seq<Id>
    var ledger: map<Id, Status>
    var claims: map<Id, Claim>
    var replies: seq<Reply>

    ghost predicate Shows(s: State)
      reads this
    {
      s.inbox == Ids(inbox) && s.ledger == ledger && s.claims == claims && s.replies == replies
    }

    /** The ids of the inbox, oldest first, that the set holds. */
    method Joined(ids: set<Id>) returns (order: seq<Id>)
      requires NoDup(inbox)
      ensures NoDup(order)
      ensures forall x :: x in order <==> x in ids && x in inbox
    {
      order := [];
      for i := 0 to |inbox|
        invariant NoDup(order)
        invariant forall x :: x in order <==> x in ids && x in inbox[..i]
      {
        if inbox[i] in ids {
          order := order + [inbox[i]];
        }
      }
    }

    method MarkAll(targets: seq<Id>, ghost s: State) returns (ghost es: seq<Event>, ghost t: State)
      requires Shows(s) && s.phase.Marking? && s.phase.targets == targets && s.phase.done == 0
      modifies this`ledger
      ensures Reaches(s, es, t) && Shows(t)
      ensures t.phase == Marking(s.phase.msg, s.phase.joined, targets, 2 * |targets|)
    {
      es, t := [], s;
      for i := 0 to |targets|
        invariant Reaches(s, es, t) && Shows(t)
        invariant t.phase == Marking(s.phase.msg, s.phase.joined, targets, 2 * i)
      {
        es, t := MarkBoth(s, es, t, i);
        ledger := BeginRow(ledger, targets[i]);
        ledger := InflightRow(ledger, targets[i]);
      }
    }

    method ReceiptAll(targets: seq<Id>, ghost s: State) returns (ghost es: seq<Event>, ghost t: State)
      requires Shows(s) && s.phase.Receipting? && s.phase.targets == targets && s.phase.done == 0
      modifies this`ledger
      ensures Reaches(s, es, t) && Shows(t)
      ensures t.phase == Receipting(s.phase.msg, s.phase.joined, targets, |targets|)
      ensures forall x :: x in targets ==> x in ledger && ledger[x] == Sent
    {
      es, t := [], s;
      for i := 0 to |targets|
        invariant Reaches(s, es, t) && Shows(t)
        invariant t.phase == Receipting(s.phase.msg, s.phase.joined, targets, i)
        invariant forall x :: x in targets[..i] ==> x in ledger && ledger[x] == Sent
      {
        Extend(s, es, t, Receipt);
        es, t := es + [Receipt], After(t, Receipt);
        ledger := ledger[targets[i] := Sent];
        assert targets[..i + 1] == targets[..i] + [targets[i]];
      }
      assert targets[..|targets|] == targets;
    }

    /** Writes the intents, sends once, writes the receipts.  Every write is one
        step of the machine above, so a crash may fall before any of them. */
    method ReplyTo(msg: Id, targets: seq<Id>, ghost s: State) returns (ghost es: seq<Event>, ghost t: State)
      requires Shows(s) && s.phase.Marking? && s.phase.msg == msg
      requires s.phase.targets == targets && s.phase.done == 0
      modifies this`ledger, this`replies
      ensures Reaches(s, es, t) && Shows(t)
      ensures t.phase == Receipting(msg, s.phase.joined, targets, |targets|)
      ensures forall x :: x in targets ==> x in ledger && ledger[x] == Sent
      ensures replies == old(replies) + [Reply(msg, Ids(targets))]
    {
      ghost var es1, s2 := MarkAll(targets, s);
      replies := replies + [Reply(msg, Ids(targets))];
      ghost var es3;
      es3, t := ReceiptAll(targets, SendStep(s2));
      Glue(s, es1, s2, es3, t);
      es := es1 + [Send] + es3;
    }

    /** The reply that ends a turn, joined handoffs included. */
    method ReplyTerminal(msg: Id, joined: set<Id>, ghost s: State)
      returns (ghost es: seq<Event>, ghost t: State)
      requires NoDup(inbox)
      requires Shows(s) && s.phase == Running(msg, joined)
      modifies this`ledger, this`replies
      ensures Reaches(s, es, t) && Shows(t)
      ensures t.phase.Receipting? && t.phase.done == |t.phase.targets|
      ensures forall x :: x == msg || (x in joined && x in inbox) ==> x in ledger && ledger[x] == Sent
      ensures replies == old(replies) + [Reply(msg, Ids(inbox) * joined + {msg})]
    {
      var order := Joined(joined);
      var targets := [msg] + order;
      assert forall x :: x in targets <==> x == msg || x in order;
      ghost var marking := After(s, Finish(order));
      ghost var rest;
      rest, t := ReplyTo(msg, targets, marking);
      es := [Finish(order)] + rest;
      assert es[1..] == rest;
      assert Ids(targets) == Ids(inbox) * joined + {msg};
    }

    method ArchiveOne(id: Id)
      modifies this`inbox
      ensures Ids(inbox) == Ids(old(inbox)) - {id}
    {
      var rest: seq<Id> := [];
      for i := 0 to |inbox|
        invariant forall x :: x in rest <==> x in inbox[..i] && x != id
      {
        assert inbox[..i + 1] == inbox[..i] + [inbox[i]];
        if inbox[i] != id {
          rest := rest + [inbox[i]];
        }
      }
      assert inbox[..|inbox|] == inbox;
      inbox := rest;
    }

    method ArchiveAll(order: seq<Id>, ghost s: State) returns (ghost es: seq<Event>, ghost t: State)
      requires Shows(s) && order != [] && s.phase.Archiving? && s.phase.left == order
      modifies this`inbox
      ensures Reaches(s, es, t) && Shows(t) && t.phase == Releasing(s.phase.own, s.phase.rows)
      ensures Ids(inbox) == Ids(old(inbox)) - Ids(order)
    {
      es, t := [], s;
      for i := 0 to |order|
        invariant Reaches(s, es, t) && Shows(t)
        invariant t.phase == if i < |order| then Archiving(order[i..], s.phase.own, s.phase.rows, s.phase.why)
                             else Releasing(s.phase.own, s.phase.rows)
        invariant Ids(inbox) == Ids(old(inbox)) - Ids(order[..i])
      {
        Extend(s, es, t, Archive);
        es, t := es + [Archive], After(t, Archive);
        ArchiveOne(order[i]);
        assert order[..i + 1] == order[..i] + [order[i]];
      }
      assert order[..|order|] == order;
    }

    method PruneAll(rows: set<Id>, ghost s: State) returns (ghost es: seq<Event>, ghost t: State)
      requires Shows(s) && s.phase == Pruning(rows) && rows != {}
      modifies this`ledger
      ensures Reaches(s, es, t) && Shows(t) && t.phase == Idle
      ensures ledger == old(ledger) - rows
    {
      es, t := [], s;
      var left := rows;
      while left != {}
        invariant Reaches(s, es, t) && Shows(t) && left <= rows
        invariant t.phase == if left == {} then Idle else Pruning(left)
        invariant ledger == old(ledger) - (rows - left)
        decreases |left|
      {
        var id :| id in left;
        PruneNext(t, left, id);
        OneLess(old(ledger), rows, left, id);
        Extend(s, es, t, Prune(id));
        es, t := es + [Prune(id)], After(t, Prune(id));
        ledger := ledger - {id};
        left := left - {id};
      }
    }

    /** The claim goes after the inbox entries and before the rows. */
    method ReleaseAndPrune(own: Id, rows: set<Id>, ghost s: State) returns (ghost es: seq<Event>, ghost t: State)
      requires Shows(s) && rows != {} && s.phase == Releasing(own, rows)
      modifies this`claims, this`ledger
      ensures Reaches(s, es, t) && Shows(t) && t.phase == Idle
      ensures claims == old(claims) - {own} && ledger == old(ledger) - rows
    {
      claims := claims - {own};
      ghost var released := After(s, Release);
      ghost var rest;
      rest, t := PruneAll(rows, released);
      es := [Release] + rest;
      assert es[1..] == rest;
    }

    /** Archives everything, releases the claim, and only then drops the rows. */
    method RetireAll(order: seq<Id>, own: Id, rows: set<Id>, ghost s: State)
      returns (ghost es: seq<Event>, ghost t: State)
      requires Shows(s) && order != [] && rows != {}
      requires s.phase.Archiving? && s.phase.left == order && s.phase.own == own && s.phase.rows == rows
      modifies this`inbox, this`claims, this`ledger
      ensures Reaches(s, es, t) && Shows(t) && t.phase == Idle
      ensures Ids(inbox) == Ids(old(inbox)) - Ids(order)
      ensures claims == old(claims) - {own} && ledger == old(ledger) - rows
    {
      ghost var es1, mid := ArchiveAll(order, s);
      ghost var es2;
      es2, t := ReleaseAndPrune(own, rows, mid);
      ReachesAppend(s, es1, mid, es2, t);
      es := es1 + es2;
    }

    /** The end of a turn whose reply is out. */
    method SettleTurn(msg: Id, joined: set<Id>, ghost s: State) returns (ghost es: seq<Event>, ghost t: State)
      requires NoDup(inbox) && Shows(s) && s.phase.Receipting?
      requires s.phase.msg == msg && s.phase.joined == joined && s.phase.done == |s.phase.targets|
      modifies this`inbox, this`claims, this`ledger
      ensures Reaches(s, es, t) && Shows(t) && t.phase == Idle
      ensures Ids(inbox) == Ids(old(inbox)) - joined - {msg}
      ensures claims == old(claims) - {msg} && ledger == old(ledger) - (joined + {msg})
    {
      var order := Joined(joined);
      ghost var archiving := After(s, Settle(order));
      ghost var rest;
      rest, t := RetireAll(order + [msg], msg, joined + {msg}, archiving);
      es := [Settle(order)] + rest;
      assert es[1..] == rest;
      assert forall x :: x in order + [msg] <==> x in order || x == msg;
    }

    /** A turn that is stopped before it runs still replies, once, and settles. */
    method StopTurn(msg: Id, ghost s: State) returns (ghost es: seq<Event>, ghost t: State)
      requires NoDup(inbox) && Shows(s) && s.phase == Marking(msg, {}, [msg], 0)
      modifies this
      ensures Reaches(s, es, t) && Shows(t) && t.phase == Idle
      ensures replies == old(replies) + [Reply(msg, {msg})]
      ensures Ids(inbox) == Ids(old(inbox)) - {msg} && msg !in ledger && msg !in claims
    {
      ghost var es1, sent := ReplyTo(msg, [msg], s);
      assert Ids([msg]) == {msg};
      ghost var es2;
      es2, t := SettleTurn(msg, {}, sent);
      ReachesAppend(s, es1, sent, es2, t);
      es := es1 + es2;
    }

    /** A message whose row says that a reply left, or may have left, is archived without running
        again, and so is one that was tried too often; any other one is stopped or starts to run. */
    method DispatchTurn(msg: Id, attempts: nat, stopped: bool, ghost s: State)
      returns (runs: bool, ghost es: seq<Event>, ghost t: State)
      requires NoDup(inbox) && Shows(s) && s.phase == Idle && msg in inbox
      modifies this
      ensures Reaches(s, es, t) && Shows(t)
      ensures runs <==> attempts <= 2 && !Settled(s, msg) && !stopped
      ensures runs ==> t.phase == Running(msg, {}) && inbox == old(inbox)
      ensures runs ==> claims == old(claims)[msg := Admitted(old(claims), msg)]
      ensures !runs ==> t.phase == Idle && msg !in inbox && msg !in ledger && msg !in claims
      ensures replies == old(replies) +
        if stopped && attempts <= 2 && !Settled(s, msg) then [Reply(msg, {msg})] else []
    {
      var pick := Pick(msg, attempts > 2, stopped);
      ghost var picked := After(s, pick);
      ghost var rest;
      runs := false;
      if attempts > 2 || (msg in ledger && ledger[msg] != Pending) {
        rest, t := RetireAll([msg], msg, {msg}, picked);
        assert msg !in Ids(inbox);
      } else if stopped {
        rest, t := StopTurn(msg, picked);
        assert msg !in Ids(inbox);
      } else {
        ledger := ClearPending(ledger, msg);
        claims := claims[msg := Admitted(claims, msg)];
        rest, t := [], picked;
        runs := true;
      }
      es := [pick] + rest;
      assert es[1..] == rest;
    }
  }
}
