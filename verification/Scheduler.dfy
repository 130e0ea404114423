/**
  Run bookkeeping of one bot (agent/scheduler.py): one active run, abandoned
  runs that still hold a worker thread, and the guard that keeps their late
  output off the stream.  Each operation holds the scheduler's lock, so every
  interleaving of threads is a sequence of operations.
*/
module Scheduler {
  import opened Prelude

  /** A run is named by its generation number: 1, 2, 3, ... */
  type Generation = nat

  datatype State = State(
    newest: Generation,
    active: Option<Generation>,
    zombies: seq<Generation>,
    escaped: set<Generation>,   // runs whose zombie flag is set
    settled: set<Generation>)

  const IDLE := State(0, None, [], {}, {})

  datatype Op =
    | Begin
    | Escape(run: Generation)
    | Settle(run: Generation)
    | Finish(run: Generation)
    | Check(run: Generation)

  /** The guard: may this run still touch its stream? */
  predicate Current(s: State, run: Generation) {
    s.active == Some(run) && run !in s.escaped && run == s.newest
  }

  predicate CanEscape(s: State, run: Generation) {
    run !in s.settled && s.active == Some(run)
  }

  function Remove(runs: seq<Generation>, run: Generation): (r: seq<Generation>)
    ensures |r| <= |runs| && forall x :: x in r ==> x in runs
    ensures forall x :: x in runs && x != run ==> x in r
  {
    if runs == [] then []
    else if runs[0] == run then
      assert forall x :: x in runs && x != run ==> x in runs[1..];
      runs[1..]
    else
      assert forall x :: x in runs ==> x == runs[0] || x in runs[1..];
      [runs[0]] + Remove(runs[1..], run)
  }

  function Apply(s: State, op: Op): State {
    match op
    case Begin => s.(newest := s.newest + 1, active := Some(s.newest + 1))
    case Escape(run) =>
      if CanEscape(s, run) then
        s.(active := None, zombies := s.zombies + [run], escaped := s.escaped + {run})
      else s
    case Settle(run) =>
      s.(settled := s.settled + {run},
         zombies := if run in s.escaped && run in s.zombies then Remove(s.zombies, run) else s.zombies)
    case Finish(run) => if s.active == Some(run) then s.(active := None) else s
    case Check(_) => s
  }

  /** Operations refer only to runs that have begun. */
  predicate Known(s: State, op: Op) {
    op.Begin? || 1 <= op.run <= s.newest
  }

  function After(s: State, ops: seq<Op>): State {
    if ops == [] then s else Apply(After(s, ops[..|ops| - 1]), ops[|ops| - 1])
  }

  predicate Lawful(s: State, ops: seq<Op>) {
    forall i :: 0 <= i < |ops| ==> Known(After(s, ops[..i]), ops[i])
  }

  predicate NoDup(runs: seq<Generation>) {
    forall i, k :: 0 <= i < k < |runs| ==> runs[i] != runs[k]
  }

  /** The zombies are exactly the escaped runs that have not settled, none of
      them is active, and an active run carries the newest generation. */
  ghost predicate Inv(s: State) {
    && NoDup(s.zombies)
    && (forall g :: g in s.zombies <==> g in s.escaped && g !in s.settled)
    && (s.active.Some? ==> s.active.value == s.newest && s.newest >= 1 && s.newest !in s.escaped)
    && (forall g :: g in s.escaped ==> 1 <= g <= s.newest)
    && (forall g :: g in s.settled ==> 1 <= g <= s.newest)
  }

  lemma {:induction false} RemoveOne(runs: seq<Generation>, run: Generation)
    requires NoDup(runs)
    ensures NoDup(Remove(runs, run))
    ensures forall x :: x in Remove(runs, run) <==> x in runs && x != run
  {
    if runs != [] && runs[0] != run {
      var rest := runs[1..];
      RemoveOne(rest, run);
      assert runs[0] !in rest;
    }
  }

  lemma {:induction false} ApplyKeeps(s: State, op: Op)
    requires Inv(s) && Known(s, op)
    ensures Inv(Apply(s, op))
  {
    match op
    case Settle(run) => RemoveOne(s.zombies, run);
    case _ =>
  }

  /** Every interleaving keeps the bookkeeping exact. */
  lemma {:induction false} EveryScheduleKeeps(ops: seq<Op>)
    requires Lawful(IDLE, ops)
    ensures Inv(After(IDLE, ops))
  {
    if ops != [] {
      var front := ops[..|ops| - 1];
      assert forall i :: 0 <= i < |front| ==> front[..i] == ops[..i];
      EveryScheduleKeeps(front);
      assert Known(After(IDLE, front), ops[|ops| - 1]);
      ApplyKeeps(After(IDLE, front), ops[|ops| - 1]);
    }
  }

  lemma {:induction false} PrefixIsLawful(ops: seq<Op>, i: nat)
    requires Lawful(IDLE, ops) && i <= |ops|
    ensures Lawful(IDLE, ops[..i])
  {
    assert forall k :: 0 <= k < i ==> ops[..i][..k] == ops[..k];
  }

  lemma {:induction false} OneMore(ops: seq<Op>, j: nat)
    requires j < |ops|
    ensures After(IDLE, ops[..j + 1]) == Apply(After(IDLE, ops[..j]), ops[j])
  {
    assert ops[..j + 1][..j] == ops[..j];
  }

  lemma {:induction false} StaysStale(s: State, op: Op, run: Generation)
    requires Inv(s) && run <= s.newest && !Current(s, run)
    ensures run <= Apply(s, op).newest && !Current(Apply(s, op), run)
  {
  }

  /** A run that has begun and is not current never becomes current again. */
  lemma {:induction false} NeverCurrentAgain(ops: seq<Op>, i: nat, j: nat, run: Generation)
    requires Lawful(IDLE, ops) && i <= j <= |ops|
    requires run <= After(IDLE, ops[..i]).newest && !Current(After(IDLE, ops[..i]), run)
    ensures run <= After(IDLE, ops[..j]).newest && !Current(After(IDLE, ops[..j]), run)
    decreases j
  {
    if i < j {
      NeverCurrentAgain(ops, i, j - 1, run);
      StillStale(ops, j - 1, run);
    }
  }

  lemma {:induction false} StillStale(ops: seq<Op>, j: nat, run: Generation)
    requires Lawful(IDLE, ops) && j < |ops|
    requires run <= After(IDLE, ops[..j]).newest && !Current(After(IDLE, ops[..j]), run)
    ensures run <= After(IDLE, ops[..j + 1]).newest && !Current(After(IDLE, ops[..j + 1]), run)
  {
    OneMore(ops, j);
    PrefixIsLawful(ops, j);
    EveryScheduleKeeps(ops[..j]);
    StaysStale(After(IDLE, ops[..j]), ops[j], run);
  }

  /** An escape that succeeds finds the run current and unsettled, and from then
      on every escape of it fails and every guard check of it drops the call. */
  lemma {:induction false} EscapeIsFinal(ops: seq<Op>, i: nat, j: nat)
    requires Lawful(IDLE, ops) && i < j <= |ops|
    requires ops[i].Escape? && CanEscape(After(IDLE, ops[..i]), ops[i].run)
    ensures Current(After(IDLE, ops[..i]), ops[i].run)
    ensures ops[i].run !in After(IDLE, ops[..i]).settled
    ensures !CanEscape(After(IDLE, ops[..j]), ops[i].run)
    ensures !Current(After(IDLE, ops[..j]), ops[i].run)
  {
    PrefixIsLawful(ops, i);
    EveryScheduleKeeps(ops[..i]);
    OneMore(ops, i);
    PrefixIsLawful(ops, j);
    EveryScheduleKeeps(ops[..j]);
    EscapedStays(ops, i + 1, j, ops[i].run);
  }

  lemma {:induction false} EscapedStays(ops: seq<Op>, i: nat, j: nat, run: Generation)
    requires i <= j <= |ops| && run in After(IDLE, ops[..i]).escaped
    ensures run in After(IDLE, ops[..j]).escaped
    decreases j
  {
    if i < j {
      EscapedStays(ops, i, j - 1, run);
      OneMore(ops, j - 1);
    }
  }

  lemma {:induction false} CurrentStep(s: State, op: Op, run: Generation)
    requires Current(s, run) && op != Begin && op != Escape(run) && op != Finish(run)
    ensures Current(Apply(s, op), run)
  {
  }

  /** A current run stays current until another begins or it is itself escaped or finished. */
  lemma {:induction false} CurrentUntil(ops: seq<Op>, i: nat, j: nat, run: Generation)
    requires i <= j <= |ops| && Current(After(IDLE, ops[..i]), run)
    requires forall k :: i <= k < j ==> ops[k] != Begin && ops[k] != Escape(run) && ops[k] != Finish(run)
    ensures Current(After(IDLE, ops[..j]), run)
    decreases j
  {
    if i < j {
      CurrentUntil(ops, i, j - 1, run);
      OneMore(ops, j - 1);
      CurrentStep(After(IDLE, ops[..j - 1]), ops[j - 1], run);
    }
  }

  // ---- the code ----

  class Run {
    const generation: Generation
    var zombie: bool
    var settled: bool

    constructor (generation: Generation)
      ensures this.generation == generation && !zombie && !settled
    {
      this.generation := generation;
      zombie, settled := false, false;
    }
  }

  class TurnScheduler {
    var generation: Generation
    var active: Run?
    var zombies: seq<Run>
    ghost var runs: seq<Run>
    ghost var state: State

    ghost predicate Numbered()
      reads this`runs, runs
    {
      forall i :: 0 <= i < |runs| ==> runs[i].generation == i + 1
    }

    ghost predicate Valid()
      reads this, runs
    {
      && |runs| == generation == state.newest
      && Numbered()
      && (active != null ==> active in runs && state.active == Some(active.generation))
      && (active == null ==> state.active == None)
      && Lists(state.zombies)
      && FlagsMatch(state)
      && Inv(state)
    }

    constructor ()
      ensures Valid() && state == IDLE && runs == []
    {
      generation, active, zombies := 0, null, [];
      runs, state := [], IDLE;
    }

    lemma SameRun(a: Run, b: Run)
      requires Numbered() && a in runs && b in runs && a.generation == b.generation
      ensures a == b
    {
    }

    lemma RunBounds(r: Run)
      requires Valid() && r in runs
      ensures 1 <= r.generation <= generation
    {
    }

    method BeginRun() returns (run: Run)
      requires Valid()
      modifies this
      ensures Valid() && fresh(run) && runs == old(runs) + [run]
      ensures state == Apply(old(state), Op.Begin) && Current(state, run.generation)
      ensures generation == old(generation) + 1 == run.generation && active == run && zombies == old(zombies)
    {
      ApplyKeeps(state, Op.Begin);
      forall r | r in runs ensures r.generation <= generation {
        RunBounds(r);
      }
      generation := generation + 1;
      run := new Run(generation);
      active := run;
      runs := runs + [run];
      state := Apply(state, Op.Begin);
    }

    method IsCurrent(run: Run) returns (ok: bool)
      requires Valid() && run in runs
      ensures ok <==> Current(state, run.generation)
    {
      ok := active == run && !run.zombie && run.generation == generation;
      if active != null && active.generation == run.generation {
        SameRun(active, run);
      }
    }

    method EscapeRun(run: Run) returns (ok: bool)
      requires Valid() && run in runs
      modifies this, run`zombie
      ensures Valid() && runs == old(runs)
      ensures ok <==> CanEscape(old(state), run.generation)
      ensures state == Apply(old(state), Op.Escape(run.generation))
      ensures ok <==> old(active) == run && !old(run.settled)
      ensures ok ==> run.zombie && active == null && zombies == old(zombies) + [run]
      ensures !ok ==> run.zombie == old(run.zombie) && active == old(active) && zombies == old(zombies)
    {
      RunBounds(run);
      ApplyKeeps(state, Op.Escape(run.generation));
      if active != null && active.generation == run.generation {
        SameRun(active, run);
      }
      if run.settled || active != run {
        return false;
      }
      run.zombie := true;
      active := null;
      zombies := zombies + [run];
      state := Apply(state, Op.Escape(run.generation));
      return true;
    }

    method FinishRun(run: Run)
      requires Valid() && run in runs
      modifies this`active, this`state
      ensures Valid() && state == Apply(old(state), Op.Finish(run.generation))
      ensures active == if old(active) == run then null else old(active)
    {
      RunBounds(run);
      ApplyKeeps(state, Op.Finish(run.generation));
      if active != null && active.generation == run.generation {
        SameRun(active, run);
      }
      if active == run {
        active := null;
      }
      state := Apply(state, Op.Finish(run.generation));
    }

    method IndexOfZombie(run: Run) returns (i: nat)
      requires Valid() && run in runs
      ensures i <= |state.zombies| == |zombies|
      ensures forall k :: 0 <= k < i ==> state.zombies[k] != run.generation
      ensures i < |zombies| ==> state.zombies[i] == run.generation
    {
      forall r | r in runs && r.generation == run.generation ensures r == run {
        SameRun(r, run);
      }
      i := 0;
      while i < |zombies| && zombies[i] != run
        invariant i <= |zombies|
        invariant forall k :: 0 <= k < i ==> state.zombies[k] != run.generation
      {
        i := i + 1;
      }
    }

    ghost predicate FlagsMatch(s: State)
      reads runs, this`runs
    {
      forall r :: r in runs ==> (r.zombie <==> r.generation in s.escaped) && (r.settled <==> r.generation in s.settled)
    }

    ghost predicate Lists(gs: seq<Generation>)
      reads this, runs
    {
      |zombies| == |gs| && forall i :: 0 <= i < |zombies| ==> zombies[i] in runs && zombies[i].generation == gs[i]
    }

    lemma StillListed(run: Run, i: nat, was: seq<Run>)
      requires Valid() && i < |was| && was == zombies && state.zombies[i] == run.generation
      requires forall k :: 0 <= k < i ==> state.zombies[k] != run.generation
      ensures
        var (left, gs) := (was[..i] + was[i + 1..], Remove(state.zombies, run.generation));
        |left| == |gs| && forall k :: 0 <= k < |left| ==> left[k] in runs && left[k].generation == gs[k]
    {
      RemoveAt(state.zombies, run.generation, i);
    }

    method DropZombie(run: Run)
      requires Valid() && run in runs
      modifies this`zombies
      ensures Lists(Remove(state.zombies, run.generation))
    {
      var i := IndexOfZombie(run);
      if i < |zombies| {
        StillListed(run, i, zombies);
        zombies := zombies[..i] + zombies[i + 1..];
      } else {
        RemoveNone(state.zombies, run.generation);
      }
    }

    method SetSettled(run: Run)
      requires Numbered() && FlagsMatch(state) && run in runs
      modifies run`settled
      ensures run.settled && FlagsMatch(Apply(state, Op.Settle(run.generation)))
    {
      forall r | r in runs && r.generation == run.generation ensures r == run {
        SameRun(r, run);
      }
      run.settled := true;
    }

    /** The worker's exit hook; a zombie that finishes late is dropped from the list. */
    method SettleRun(run: Run)
      requires Valid() && run in runs
      modifies this`zombies, this`state, run`settled
      ensures Valid() && run.settled
      ensures state == Apply(old(state), Op.Settle(run.generation))
    {
      RunBounds(run);
      ApplyKeeps(state, Op.Settle(run.generation));
      RemoveNone(state.zombies, run.generation);
      ghost var next := Apply(state, Op.Settle(run.generation));
      DropZombie(run);
      SetSettled(run);
      state := next;
    }
  }

  lemma {:induction false} RemoveNone(runs: seq<Generation>, run: Generation)
    ensures run !in runs ==> Remove(runs, run) == runs
  {
    if runs != [] && run !in runs {
      RemoveNone(runs[1..], run);
    }
  }

  lemma {:induction false} RemoveAt(runs: seq<Generation>, run: Generation, i: nat)
    requires i < |runs| && runs[i] == run && forall k :: 0 <= k < i ==> runs[k] != run
    ensures Remove(runs, run) == runs[..i] + runs[i + 1..]
  {
    if i > 0 {
      RemoveAt(runs[1..], run, i - 1);
    }
  }

  /** The stream writer of one run, gone dark once the run is superseded. */
  class GuardedStreamWriter {
    const scheduler: TurnScheduler
    const run: Run
    var written: seq<string>

    constructor (scheduler: TurnScheduler, run: Run)
      ensures this.scheduler == scheduler && this.run == run && written == []
    {
      this.scheduler, this.run, written := scheduler, run, [];
    }

    method Write(frame: string)
      requires scheduler.Valid() && run in scheduler.runs
      modifies this`written
      ensures written ==
        if Current(scheduler.state, run.generation) then old(written) + [frame] else old(written)
    {
      var ok := scheduler.IsCurrent(run);
      if ok {
        written := written + [frame];
      }
    }
  }
}
