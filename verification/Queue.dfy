/**
  The waiting line of one bot (agent/messaging.py) and the pick of the next
  task (agent/runtime.py): two independent readings of the same inbox that must
  agree, and a user's reordering that must be obeyed.
*/
module Queue {
  import opened Prelude

  type Id = int

  datatype Origin = Routine | Dream | Idle | Recovery | Plain

  datatype Lane = Human | Agent | Background

  datatype Msg = Msg(id: Id, ts: int, fromUser: bool, origin: Origin, now: bool)

  function LaneOf(m: Msg): Lane {
    if m.origin != Plain then Background else if m.fromUser then Human else Agent
  }

  function LaneIndex(lane: Lane): nat {
    match lane
    case Human => 0
    case Agent => 1
    case Background => 2
  }

  // ---- the sort key of ordered_pending, with the picker's notion of late ----

  /** The last place of id in the order file; past the end when it has none. */
  function RankOf(order: seq<Id>, id: Id): (r: nat)
    ensures r <= |order| && (r < |order| <==> id in order)
    ensures r < |order| ==> order[r] == id
  {
    if id in order then LastPlace(order, id) else |order|
  }

  function LastPlace(order: seq<Id>, id: Id): (r: nat)
    requires id in order
    ensures r < |order| && order[r] == id && forall k :: r < k < |order| ==> order[k] != id
  {
    var n := |order| - 1;
    if order[n] == id then n
    else
      assert order == order[..n] + [order[n]];
      LastPlace(order[..n], id)
  }

  /** A Send-now user message nobody has placed in line or put off. */
  predicate Jumps(order: seq<Id>, late: set<Id>, m: Msg) {
    m.now && m.id !in order && m.id !in late && LaneOf(m) == Human
  }

  function Key(order: seq<Id>, late: set<Id>, m: Msg): (int, int, int, int, int, int) {
    (if Jumps(order, late, m) then 0 else 1,
     RankOf(order, m.id),
     LaneIndex(LaneOf(m)),
     if m.id !in order && m.id in late then 1 else 0,
     m.ts,
     m.id)
  }

  predicate LexLess(a: (int, int, int, int, int, int), b: (int, int, int, int, int, int)) {
    a.0 < b.0 || (a.0 == b.0 &&
    (a.1 < b.1 || (a.1 == b.1 &&
    (a.2 < b.2 || (a.2 == b.2 &&
    (a.3 < b.3 || (a.3 == b.3 &&
    (a.4 < b.4 || (a.4 == b.4 && a.5 < b.5)))))))))
  }

  predicate Before(order: seq<Id>, late: set<Id>, a: Msg, b: Msg) {
    LexLess(Key(order, late, a), Key(order, late, b))
  }

  predicate NoDup(xs: seq<Id>) {
    forall i, k :: 0 <= i < k < |xs| ==> xs[i] != xs[k]
  }

  predicate DistinctIds(ms: seq<Msg>) {
    forall i, k :: 0 <= i < k < |ms| ==> ms[i].id != ms[k].id
  }

  predicate Increasing(order: seq<Id>, late: set<Id>, ms: seq<Msg>) {
    forall i, k :: 0 <= i < k < |ms| ==> Before(order, late, ms[i], ms[k])
  }

  // ---- ordered_pending ----

  function Insert(order: seq<Id>, m: Msg, ms: seq<Msg>): (r: seq<Msg>)
    ensures forall x :: x in r <==> x == m || x in ms
  {
    if ms == [] || Before(order, {}, m, ms[0]) then [m] + ms
    else
      var rest := Insert(order, m, ms[1..]);
      assert forall x :: x in ms <==> x == ms[0] || x in ms[1..];
      [ms[0]] + rest
  }

  function OrderedPending(order: seq<Id>, ms: seq<Msg>): (r: seq<Msg>)
    ensures forall x :: x in r <==> x in ms
  {
    if ms == [] then []
    else
      var rest := OrderedPending(order, ms[1..]);
      assert forall x :: x in ms <==> x == ms[0] || x in ms[1..];
      Insert(order, ms[0], rest)
  }

  lemma {:induction false} InsertIncreasing(order: seq<Id>, m: Msg, ms: seq<Msg>)
    requires Increasing(order, {}, ms) && forall x :: x in ms ==> x.id != m.id
    ensures Increasing(order, {}, Insert(order, m, ms))
  {
    if ms != [] && !Before(order, {}, m, ms[0]) {
      var rest := Insert(order, m, ms[1..]);
      assert ms[0] in ms && Before(order, {}, ms[0], m);
      assert forall x :: x in ms[1..] ==> x in ms;
      InsertIncreasing(order, m, ms[1..]);
      forall x | x in rest ensures Before(order, {}, ms[0], x) {
        if x != m {
          var k :| 0 <= k < |ms[1..]| && ms[1..][k] == x;
          assert ms[k + 1] == x;
        }
      }
    }
  }

  lemma {:induction false} PendingIncreasing(order: seq<Id>, ms: seq<Msg>)
    requires DistinctIds(ms)
    ensures Increasing(order, {}, OrderedPending(order, ms))
  {
    if ms != [] {
      PendingIncreasing(order, ms[1..]);
      forall x | x in ms[1..] ensures x.id != ms[0].id {
        var k :| 0 <= k < |ms[1..]| && ms[1..][k] == x;
        assert ms[k + 1] == x;
      }
      InsertIncreasing(order, ms[0], OrderedPending(order, ms[1..]));
    }
  }

  /** An order determines the line: two increasing sequences with the same
      messages are equal. */
  lemma {:induction false} LineIsUnique(order: seq<Id>, late: set<Id>, a: seq<Msg>, b: seq<Msg>)
    requires Increasing(order, late, a) && Increasing(order, late, b)
    requires forall x :: x in a <==> x in b
    ensures a == b
  {
    assert (a != [] ==> a[0] in a) && (b != [] ==> b[0] in b);
    if a != [] {
      var i :| 0 <= i < |b| && b[i] == a[0];
      var k :| 0 <= k < |a| && a[k] == b[0];
      assert i == 0;
      forall x ensures x in a[1..] <==> x in b[1..] {
        TailMembers(order, late, a, x);
        TailMembers(order, late, b, x);
      }
      LineIsUnique(order, late, a[1..], b[1..]);
      assert a == [a[0]] + a[1..] && b == [b[0]] + b[1..];
    }
  }

  lemma {:induction false} TailMembers(order: seq<Id>, late: set<Id>, a: seq<Msg>, x: Msg)
    requires a != [] && Increasing(order, late, a)
    ensures x in a[1..] <==> x in a && x != a[0]
  {
    if x in a[1..] {
      var k :| 0 <= k < |a[1..]| && a[1..][k] == x;
      assert a[k + 1] == x && Before(order, late, a[0], x);
    }
  }

  // ---- the picker ----

  predicate Earlier(a: Msg, b: Msg) {
    a.ts < b.ts || (a.ts == b.ts && a.id < b.id)
  }

  /** The inbox is listed oldest first. */
  predicate OldestFirst(ms: seq<Msg>) {
    forall i, k :: 0 <= i < k < |ms| ==> Earlier(ms[i], ms[k])
  }

  /** The oldest item that satisfies p. */
  method First(items: seq<Msg>, p: Msg -> bool) returns (r: Option<Msg>)
    requires OldestFirst(items)
    ensures r.None? ==> forall x :: x in items ==> !p(x)
    ensures r.Some? ==> r.value in items && p(r.value)
    ensures r.Some? ==> forall x :: x in items && p(x) && x != r.value ==> Earlier(r.value, x)
  {
    for i := 0 to |items|
      invariant forall k :: 0 <= k < i ==> !p(items[k])
    {
      if p(items[i]) {
        return Some(items[i]);
      }
    }
    r := None;
  }

  /** The item the user placed furthest ahead. */
  method Foremost(order: seq<Id>, items: seq<Msg>) returns (r: Option<Msg>)
    ensures r.None? ==> forall x :: x in items ==> x.id !in order
    ensures r.Some? ==> r.value in items && r.value.id in order
    ensures r.Some? ==> forall x :: x in items ==> RankOf(order, r.value.id) <= RankOf(order, x.id)
  {
    r := None;
    for i := 0 to |items|
      invariant r.None? ==> forall x :: x in items[..i] ==> x.id !in order
      invariant r.Some? ==> r.value in items && r.value.id in order
      invariant r.Some? ==> forall x :: x in items[..i] ==> RankOf(order, r.value.id) <= RankOf(order, x.id)
    {
      assert items[..i + 1] == items[..i] + [items[i]];
      if items[i].id in order && (r.None? || RankOf(order, items[i].id) < RankOf(order, r.value.id)) {
        r := Some(items[i]);
      }
    }
    assert items[..|items|] == items;
  }

  /** The items of one lane, oldest first. */
  ghost predicate IsLane(items: seq<Msg>, lane: Lane, work: seq<Msg>) {
    OldestFirst(items) && forall x :: x in items <==> x in work && LaneOf(x) == lane
  }

  method FillLane(work: seq<Msg>, lane: Lane) returns (items: seq<Msg>)
    requires OldestFirst(work)
    ensures IsLane(items, lane, work)
  {
    items := [];
    for i := 0 to |work|
      invariant IsLane(items, lane, work[..i])
    {
      assert work[..i + 1] == work[..i] + [work[i]];
      if LaneOf(work[i]) == lane {
        forall x | x in items ensures Earlier(x, work[i]) {
          var k :| 0 <= k < i && work[k] == x;
        }
        items := items + [work[i]];
      }
    }
    assert work[..|work|] == work;
  }

  /** The foremost item of the picker's own order. */
  ghost predicate IsNext(order: seq<Id>, late: set<Id>, work: seq<Msg>, m: Msg) {
    m in work && forall x :: x in work && x != m ==> Before(order, late, m, x)
  }

  /** One lane when nothing jumps and nothing is placed: oldest fresh item first. */
  method PickInLane(order: seq<Id>, late: set<Id>, items: seq<Msg>, lane: Lane, ghost work: seq<Msg>)
    returns (next: Msg)
    requires IsLane(items, lane, work) && items != []
    requires forall x :: x in work ==> !Jumps(order, late, x) && x.id !in order
    requires forall x :: x in work ==> LaneIndex(lane) <= LaneIndex(LaneOf(x))
    ensures IsNext(order, late, work, next)
  {
    var oldest := First(items, (m: Msg) => m.id !in late);
    if oldest.Some? {
      next := oldest.value;
    } else {
      next := items[0];
      assert next in items;
      forall x | x in items && x != next ensures Earlier(next, x) {
        var k :| 0 <= k < |items| && items[k] == x;
      }
    }
  }

  /** Putting messages off never moves a message that is placed or not put off
      behind one it preceded. */
  lemma {:induction false} LateOnlyDemotes(order: seq<Id>, late: set<Id>, a: Msg, b: Msg)
    requires Before(order, {}, a, b)
    requires a.id in order || a.id !in late
    ensures Before(order, late, a, b)
  {
  }

  lemma {:induction false} HeadIsNext(order: seq<Id>, late: set<Id>, work: seq<Msg>, next: Msg)
    requires DistinctIds(work) && IsNext(order, late, work, next)
    ensures OrderedPending(order, work) != []
    ensures
      var head := OrderedPending(order, work)[0];
      head.id in order || head.id !in late ==> next == head
  {
    var line := OrderedPending(order, work);
    PendingIncreasing(order, work);
    assert next in line;
    var head := line[0];
    assert head in work;
    assert head != next ==> Before(order, late, next, head) && Before(order, {}, head, next);
    if head != next && (head.id in order || head.id !in late) {
      LateOnlyDemotes(order, late, head, next);
    }
  }

  /** A Send-now chat of the user that is neither placed nor put off. */
  predicate CutsIn(order: seq<Id>, late: set<Id>, m: Msg) {
    m.now && m.fromUser && m.origin == Plain && m.id !in order && m.id !in late
  }

  /** User chats, then colleagues, then everything in the background. */
  function Turnout(m: Msg): nat {
    if m.origin != Plain then 2 else if m.fromUser then 0 else 1
  }

  /** The first of those in `work` that satisfy `p`, by arrival. */
  ghost predicate OldestWith(work: seq<Msg>, p: Msg -> bool, m: Msg) {
    m in work && p(m) && forall x :: x in work && p(x) && x != m ==> Earlier(m, x)
  }

  /** The oldest that cuts in; else the one placed furthest ahead; else, in the first lane that has
      work, the oldest not put off, or the oldest. */
  ghost predicate PickedByRule(order: seq<Id>, late: set<Id>, work: seq<Msg>, m: Msg) {
    if exists x :: x in work && CutsIn(order, late, x) then
      OldestWith(work, (x: Msg) => CutsIn(order, late, x), m)
    else if exists x :: x in work && x.id in order then
      m in work && m.id in order &&
      forall x :: x in work && x.id in order && x != m ==> RankOf(order, m.id) < RankOf(order, x.id)
    else
      (forall x :: x in work ==> Turnout(m) <= Turnout(x)) &&
      if exists x :: x in work && Turnout(x) == Turnout(m) && x.id !in late then
        OldestWith(work, (x: Msg) => Turnout(x) == Turnout(m) && x.id !in late, m)
      else OldestWith(work, (x: Msg) => Turnout(x) == Turnout(m), m)
  }

  lemma {:induction false} RuleFollows(order: seq<Id>, late: set<Id>, work: seq<Msg>, m: Msg)
    requires DistinctIds(work) && IsNext(order, late, work, m)
    ensures PickedByRule(order, late, work, m)
  {
    forall x | x in work && x != m ensures x.id != m.id && Before(order, late, m, x) {
      if x.id == m.id { DistinctById(work, x, m); }
    }
  }

  method NextTask(order: seq<Id>, deferred: set<Id>, work: seq<Msg>) returns (next: Msg)
    requires work != [] && OldestFirst(work) && DistinctIds(work)
    ensures IsNext(order, deferred, work, next) && PickedByRule(order, deferred, work, next)
    ensures OrderedPending(order, work) != []
    ensures
      var head := OrderedPending(order, work)[0];
      NoDup(order) && (head.id in order || head.id !in deferred) ==> next == head
  {
    next := Pick(order, deferred, work);
    HeadIsNext(order, deferred, work, next);
    RuleFollows(order, deferred, work, next);
  }

  method Pick(order: seq<Id>, deferred: set<Id>, work: seq<Msg>) returns (next: Msg)
    requires work != [] && OldestFirst(work) && DistinctIds(work)
    ensures IsNext(order, deferred, work, next)
  {
    var human := FillLane(work, Human);
    var agent := FillLane(work, Agent);
    var background := FillLane(work, Background);
    var jump := First(human, (m: Msg) => m.now && m.id !in order && m.id !in deferred);
    if jump.Some? {
      return jump.value;
    }
    var placed := Foremost(order, work);
    if placed.Some? {
      next := placed.value;
      forall x | x in work && x != next ensures Before(order, deferred, next, x) {
        assert x.id != next.id by {
          var i :| 0 <= i < |work| && work[i] == x;
          var k :| 0 <= k < |work| && work[k] == next;
          assert i < k || k < i;
        }
      }
      return;
    }
    assert work[0] in work;
    if human != [] {
      next := PickInLane(order, deferred, human, Human, work);
    } else if agent != [] {
      next := PickInLane(order, deferred, agent, Agent, work);
    } else {
      next := PickInLane(order, deferred, background, Background, work);
    }
  }

  // ---- reordering ----

  function IdsOf(ms: seq<Msg>): (r: seq<Id>)
    ensures |r| == |ms| && forall i :: 0 <= i < |ms| ==> r[i] == ms[i].id
  {
    seq(|ms|, i requires 0 <= i < |ms| => ms[i].id)
  }

  function Keep(ms: seq<Msg>, p: Msg -> bool): (r: seq<Msg>)
    ensures forall x :: x in r <==> x in ms && p(x)
  {
    if ms == [] then []
    else
      assert forall x :: x in ms <==> x == ms[0] || x in ms[1..];
      (if p(ms[0]) then [ms[0]] else []) + Keep(ms[1..], p)
  }

  lemma {:induction false} KeepIncreasing(order: seq<Id>, ms: seq<Msg>, p: Msg -> bool)
    requires Increasing(order, {}, ms)
    ensures Increasing(order, {}, Keep(ms, p))
  {
    if ms != [] {
      KeepIncreasing(order, ms[1..], p);
      forall x | x in Keep(ms[1..], p) ensures Before(order, {}, ms[0], x) {
        var k :| 0 <= k < |ms[1..]| && ms[1..][k] == x;
        assert ms[k + 1] == x;
      }
    }
  }

  /** The line shown to the user: skip is what is running or already joined. */
  function Waiting(order: seq<Id>, ms: seq<Msg>, skip: set<Id>): seq<Msg> {
    Keep(OrderedPending(order, ms), (m: Msg) => m.id !in skip)
  }

  /** The messages of the queue, one for each id, in the order of the ids. */
  ghost predicate Lists(line: seq<Msg>, ids: seq<Id>, ms: seq<Msg>, skip: set<Id>) {
    && IdsOf(line) == ids
    && forall x :: x in line <==> x in ms && x.id !in skip
  }

  lemma {:induction false} RankAt(order: seq<Id>, i: nat)
    requires NoDup(order) && i < |order|
    ensures RankOf(order, order[i]) == i
  {
    var r := RankOf(order, order[i]);
    assert order[i] in order;
    assert order[r] == order[i];
  }

  lemma {:induction false} ListedIncreasing(line: seq<Msg>, ids: seq<Id>)
    requires NoDup(ids) && IdsOf(line) == ids
    ensures Increasing(ids, {}, line)
  {
    forall i, k | 0 <= i < k < |line| ensures Before(ids, {}, line[i], line[k]) {
      assert line[i].id == ids[i] && line[k].id == ids[k];
      RankAt(ids, i);
      RankAt(ids, k);
    }
  }

  /** Three runs, each in order, and each message of one before the next's. */
  lemma {:induction false} ThreeRuns(ids: seq<Id>, a: seq<Msg>, b: seq<Msg>, c: seq<Msg>)
    requires Increasing(ids, {}, a) && Increasing(ids, {}, b) && Increasing(ids, {}, c)
    requires forall x, y :: x in a && y in b + c ==> Before(ids, {}, x, y)
    requires forall x, y :: x in b && y in c ==> Before(ids, {}, x, y)
    ensures Increasing(ids, {}, a + b + c)
  {
    var s := a + b + c;
    forall i, k | 0 <= i < k < |s| ensures Before(ids, {}, s[i], s[k]) {
      if i < |a| && k >= |a| {
        assert s[k] == (b + c)[k - |a|];
        assert s[i] in a && s[k] in b + c;
      } else if |a| <= i < |a| + |b| <= k {
        assert s[i] in b && s[k] in c;
      }
    }
  }

  /** A Send-now chat of the user. */
  predicate Urgent(m: Msg) {
    m.now && LaneOf(m) == Human
  }

  function Ahead(arrived: seq<Msg>): (r: seq<Msg>)
    ensures forall x :: x in r <==> x in arrived && Urgent(x)
  {
    Keep(arrived, Urgent)
  }

  function Behind(arrived: seq<Msg>): (r: seq<Msg>)
    ensures forall x :: x in r <==> x in arrived && !Urgent(x)
  {
    Keep(arrived, (m: Msg) => !Urgent(m))
  }

  lemma {:induction false} ListedHaveRanks(line: seq<Msg>, ids: seq<Id>, ms: seq<Msg>, skip: set<Id>)
    requires Lists(line, ids, ms, skip)
    ensures forall x :: x in line ==> x.id in ids
  {
    forall x | x in line ensures x.id in ids {
      var k :| 0 <= k < |line| && line[k] == x;
      assert ids[k] == x.id;
    }
  }

  lemma {:induction false} LineWithArrivals(ids: seq<Id>, line: seq<Msg>, arrived: seq<Msg>)
    requires DistinctIds(arrived) && NoDup(ids) && IdsOf(line) == ids
    requires forall x :: x in line ==> x.id in ids
    requires forall x :: x in arrived ==> x.id !in ids
    ensures Increasing(ids, {}, OrderedPending(ids, Ahead(arrived)) + line + OrderedPending(ids, Behind(arrived)))
  {
    KeepDistinct(arrived, Urgent);
    KeepDistinct(arrived, (m: Msg) => !Urgent(m));
    PendingIncreasing(ids, Ahead(arrived));
    PendingIncreasing(ids, Behind(arrived));
    ListedIncreasing(line, ids);
    ThreeRuns(ids, OrderedPending(ids, Ahead(arrived)), line, OrderedPending(ids, Behind(arrived)));
  }

  lemma {:induction false} WaitingIncreasing(order: seq<Id>, ms: seq<Msg>, skip: set<Id>)
    requires DistinctIds(ms)
    ensures Increasing(order, {}, Waiting(order, ms, skip))
    ensures forall x :: x in Waiting(order, ms, skip) <==> x in ms && x.id !in skip
  {
    PendingIncreasing(order, ms);
    KeepIncreasing(order, OrderedPending(order, ms), (m: Msg) => m.id !in skip);
  }

  lemma {:induction false} SameMembers(ids: seq<Id>, ms: seq<Msg>, skip: set<Id>, arrived: seq<Msg>, line: seq<Msg>)
    requires Lists(line, ids, ms, skip)
    requires forall x :: x in arrived ==> x.id !in skip
    ensures
      var all := OrderedPending(ids, Ahead(arrived)) + line + OrderedPending(ids, Behind(arrived));
      forall x :: x in all <==> x in Waiting(ids, ms + arrived, skip)
  {
    assert forall x :: x in ms + arrived <==> x in ms || x in arrived;
    var a, c := OrderedPending(ids, Ahead(arrived)), OrderedPending(ids, Behind(arrived));
    assert forall x :: x in a + line + c <==> x in a || x in line || x in c;
  }

  lemma {:induction false} IdsOfRuns(a: seq<Msg>, b: seq<Msg>, c: seq<Msg>)
    ensures IdsOf(a + b + c) == IdsOf(a) + IdsOf(b) + IdsOf(c)
  {
  }

  /** Reordering is obeyed: with the ids as the saved order, the waiting line is
      the Send-now chats that arrived since, then exactly the ids, then the
      plain arrivals. */
  lemma {:induction false} ReorderIsObeyed(ids: seq<Id>, ms: seq<Msg>, skip: set<Id>, arrived: seq<Msg>, line: seq<Msg>)
    requires DistinctIds(ms + arrived) && NoDup(ids)
    requires Lists(line, ids, ms, skip)
    requires forall x :: x in arrived ==> x.id !in skip && x.id !in ids
    ensures IdsOf(Waiting(ids, ms + arrived, skip))
      == IdsOf(OrderedPending(ids, Ahead(arrived))) + ids + IdsOf(OrderedPending(ids, Behind(arrived)))
  {
    assert DistinctIds(arrived) by {
      assert forall i :: 0 <= i < |arrived| ==> (ms + arrived)[|ms| + i] == arrived[i];
    }
    ListedHaveRanks(line, ids, ms, skip);
    LineWithArrivals(ids, line, arrived);
    WaitingIncreasing(ids, ms + arrived, skip);
    var a, c := OrderedPending(ids, Ahead(arrived)), OrderedPending(ids, Behind(arrived));
    var w := Waiting(ids, ms + arrived, skip);
    SameMembers(ids, ms, skip, arrived, line);
    LineIsUnique(ids, {}, w, a + line + c);
    IdsOfRuns(a, line, c);
  }

  lemma {:induction false} KeepDistinct(ms: seq<Msg>, p: Msg -> bool)
    requires DistinctIds(ms)
    ensures DistinctIds(Keep(ms, p))
  {
    if ms != [] {
      KeepDistinct(ms[1..], p);
      forall x | x in ms[1..] ensures x.id != ms[0].id {
        var k :| 0 <= k < |ms[1..]| && ms[1..][k] == x;
        assert ms[k + 1] == x;
      }
    }
  }

  function Lookup(ms: seq<Msg>, id: Id): (m: Option<Msg>)
    ensures m.Some? ==> m.value in ms && m.value.id == id
    ensures m.None? ==> forall x :: x in ms ==> x.id != id
  {
    if ms == [] then None
    else if ms[0].id == id then Some(ms[0])
    else
      assert forall x :: x in ms <==> x == ms[0] || x in ms[1..];
      Lookup(ms[1..], id)
  }

  predicate SameIds(ids: seq<Id>, ms: seq<Msg>) {
    (forall id :: id in ids ==> Lookup(ms, id).Some?) && (forall m :: m in ms ==> m.id in ids)
  }

  function Arrange(ids: seq<Id>, ms: seq<Msg>): (line: seq<Msg>)
    requires forall id :: id in ids ==> Lookup(ms, id).Some?
    ensures IdsOf(line) == ids && forall x :: x in line ==> x in ms
  {
    seq(|ids|, i requires 0 <= i < |ids| => Lookup(ms, ids[i]).value)
  }

  lemma {:induction false} DistinctById(ms: seq<Msg>, a: Msg, b: Msg)
    requires DistinctIds(ms) && a in ms && b in ms && a.id == b.id
    ensures a == b
  {
    var i :| 0 <= i < |ms| && ms[i] == a;
    var k :| 0 <= k < |ms| && ms[k] == b;
    assert i == k;
  }

  lemma {:induction false} ArrangeLists(ids: seq<Id>, waiting: seq<Msg>, ms: seq<Msg>, skip: set<Id>)
    requires DistinctIds(ms) && SameIds(ids, waiting)
    requires forall x :: x in waiting <==> x in ms && x.id !in skip
    ensures Lists(Arrange(ids, waiting), ids, ms, skip)
  {
    var line := Arrange(ids, waiting);
    forall x | x in waiting ensures x in line {
      var k :| 0 <= k < |ids| && ids[k] == x.id;
      assert line[k].id == x.id && line[k] in waiting;
      DistinctById(ms, x, line[k]);
    }
  }

  lemma {:induction false} ExactlyIds(ids: seq<Id>, ms: seq<Msg>, skip: set<Id>, line: seq<Msg>)
    requires DistinctIds(ms) && NoDup(ids) && Lists(line, ids, ms, skip)
    ensures IdsOf(Waiting(ids, ms, skip)) == ids
  {
    assert ms + [] == ms;
    ReorderIsObeyed(ids, ms, skip, [], line);
  }

  /** The line drains in the chosen order: the picker takes its first id, even a
      deferred one, and what then waits behind the running message is the rest. */
  lemma {:induction false} DrainsInOrder(ids: seq<Id>, ms: seq<Msg>, line: seq<Msg>, late: set<Id>, next: Msg)
    requires DistinctIds(ms) && NoDup(ids) && ids != [] && Lists(line, ids, ms, {})
    requires IsNext(ids, late, ms, next)
    ensures next.id == ids[0]
    ensures IdsOf(Waiting(ids[1..], ms, {next.id})) == ids[1..]
  {
    ExactlyIds(ids, ms, {}, line);
    WaitingIncreasing(ids, ms, {});
    PendingIncreasing(ids, ms);
    LineIsUnique(ids, {}, Waiting(ids, ms, {}), OrderedPending(ids, ms));
    HeadIsNext(ids, late, ms, next);
    var rest := line[1..];
    forall x ensures x in rest <==> x in ms && x.id !in {next.id} {
      ListedIncreasing(line, ids);
      TailMembers(ids, {}, line, x);
      if x in ms && x.id == line[0].id {
        DistinctById(ms, x, line[0]);
      }
    }
    assert IdsOf(rest) == ids[1..];
    ExactlyIds(ids[1..], ms, {next.id}, rest);
  }

  /** The saved order of the queue. */
  class Line {
    var order: seq<Id>

    /** Saves the order the user chose, unless the snapshot it came from is
        stale; a saved order is exactly what the next reader of the line sees. */
    method Reorder(ids: seq<Id>, ms: seq<Msg>, skip: set<Id>) returns (ok: bool)
      requires DistinctIds(ms)
      modifies this
      ensures ok <==> NoDup(ids) && SameIds(ids, Waiting(old(order), ms, skip))
      ensures order == if ok then ids else old(order)
      ensures ok ==> IdsOf(Waiting(order, ms, skip)) == ids
    {
      var waiting := Waiting(order, ms, skip);
      ok := NoDup(ids) && SameIds(ids, waiting);
      if ok {
        WaitingIncreasing(order, ms, skip);
        ArrangeLists(ids, waiting, ms, skip);
        ExactlyIds(ids, ms, skip, Arrange(ids, waiting));
        order := ids;
      }
    }
  }
}
