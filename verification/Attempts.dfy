/** The one-slot attempt file of a bot, and when a message is given up (agent/runtime.py). */
module Attempts {
  import opened Prelude

  type Id = nat

  /**
   How a dispatch ended, as far as the file goes: settled, interrupted and put off, cut off by a
   crash before the file was cleared, or given up. A crash after that leaves what the end before
   it leaves.
   */
  datatype End = Settled | Deferred | Crashed | GivenUp

  datatype Dispatch = Dispatch(id: Id, end: End)

  datatype Slot = Slot(id: Id, count: nat)

  const MAX_ATTEMPTS := 2

  /** The count that a dispatch of id writes. */
  function Count(slot: Option<Slot>, id: Id): nat {
    if slot.Some? && slot.value.id == id then slot.value.count + 1 else 1
  }

  /** What one dispatch and its end leave in the file. */
  function Leaves(slot: Option<Slot>, d: Dispatch): Option<Slot> {
    match d.end
    case Deferred => Some(Slot(d.id, 1))
    case Crashed => Some(Slot(d.id, Count(slot, d.id)))
    case _ => None
  }

  function SlotAfter(ds: seq<Dispatch>): Option<Slot> {
    if ds == [] then None else Leaves(SlotAfter(ds[..|ds| - 1]), ds[|ds| - 1])
  }

  /** The next dispatch of id gives it up, unless a crash cuts that off. */
  predicate GivesUp(slot: Option<Slot>, id: Id) {
    Count(slot, id) > MAX_ATTEMPTS
  }

  /** A dispatch whose count says so gives up or is cut off by a crash; no other one gives up. */
  predicate Ends(slot: Option<Slot>, d: Dispatch) {
    if GivesUp(slot, d.id) then d.end in {GivenUp, Crashed} else d.end != GivenUp
  }

  ghost predicate Lawful(ds: seq<Dispatch>) {
    forall i :: 0 <= i < |ds| ==> Ends(SlotAfter(ds[..i]), ds[i])
  }

  lemma {:induction false} PrefixLawful(ds: seq<Dispatch>, n: nat)
    requires Lawful(ds) && n <= |ds|
    ensures Lawful(ds[..n])
  {
    assert forall i :: 0 <= i < n ==> ds[..n][..i] == ds[..i];
  }

  /** The last dispatch was of id and left its mark. */
  predicate Unfinished(ds: seq<Dispatch>, id: Id) {
    ds != [] && ds[|ds| - 1].id == id && ds[|ds| - 1].end in {Deferred, Crashed}
  }

  lemma {:induction false} SlotIsUnfinished(ds: seq<Dispatch>, id: Id)
    requires Lawful(ds)
    ensures SlotAfter(ds).Some? && SlotAfter(ds).value.id == id <==> Unfinished(ds, id)
    ensures SlotAfter(ds).Some? ==> 1 <= SlotAfter(ds).value.count
  {
    if ds != [] {
      var n := |ds| - 1;
      PrefixLawful(ds, n);
      SlotIsUnfinished(ds[..n], ds[n].id);
    }
  }

  /** Exactly when the next dispatch of id is given up: the last two dispatches of the bot were of
      id, the last one crashed, and the one before crashed or was put off. */
  lemma {:induction false} GivenUpIff(ds: seq<Dispatch>, id: Id)
    requires Lawful(ds)
    ensures GivesUp(SlotAfter(ds), id) <==>
      Unfinished(ds, id) && ds[|ds| - 1].end == Crashed && Unfinished(ds[..|ds| - 1], id)
  {
    SlotIsUnfinished(ds, id);
    if ds != [] {
      PrefixLawful(ds, |ds| - 1);
      SlotIsUnfinished(ds[..|ds| - 1], id);
    }
  }

  /** So one crash can be enough: after a deferral the file already counts one attempt. */
  lemma {:induction false} OneCrashCanSuffice()
    ensures
      var ds := [Dispatch(1, Deferred), Dispatch(1, Crashed)];
      Lawful(ds) && GivesUp(SlotAfter(ds), 1)
  {
    var ds := [Dispatch(1, Deferred), Dispatch(1, Crashed)];
    assert ds[..0] == [] && ds[..1] == [Dispatch(1, Deferred)] && ds[..1][..0] == [];
    assert SlotAfter(ds[..1]) == Some(Slot(1, 1));
    assert SlotAfter(ds) == Some(Slot(1, 2));
  }

  /** A message that is never put off is given up only after two crashes of its own in a row. */
  lemma {:induction false} TwoCrashesWithoutDeferral(ds: seq<Dispatch>, id: Id)
    requires Lawful(ds) && GivesUp(SlotAfter(ds), id)
    requires forall i :: 0 <= i < |ds| ==> ds[i] != Dispatch(id, Deferred)
    ensures |ds| >= 2 && ds[|ds| - 1] == ds[|ds| - 2] == Dispatch(id, Crashed)
  {
    GivenUpIff(ds, id);
  }

  class AttemptFile {
    var slot: Option<Slot>

    method NoteAttempt(id: Id) returns (count: nat)
      modifies this
      ensures count == Count(old(slot), id) && slot == Some(Slot(id, count))
    {
      count := 1;
      if slot.Some? && slot.value.id == id {
        count := slot.value.count + 1;
      }
      slot := Some(Slot(id, count));
    }

    method WriteAttempt(id: Id, count: nat)
      modifies this
      ensures slot == Some(Slot(id, count))
    {
      slot := Some(Slot(id, count));
    }

    method ClearAttempt(id: Id)
      modifies this
      ensures slot == if old(slot).Some? && old(slot).value.id == id then None else old(slot)
    {
      if slot.Some? && slot.value.id == id {
        slot := None;
      }
    }

    /** One dispatch as the run loop handles the file, up to its end; `end` is how it ends unless it
        gives up, and a crash may cut off either. */
    method RunDispatch(id: Id, end: End, ghost ds: seq<Dispatch>) returns (gaveUp: bool)
      requires Lawful(ds) && slot == SlotAfter(ds) && end != GivenUp
      modifies this
      ensures gaveUp <==> GivesUp(SlotAfter(ds), id) && end != Crashed
      ensures
        var next := ds + [Dispatch(id, if gaveUp then GivenUp else end)];
        Lawful(next) && slot == SlotAfter(next)
    {
      var count := NoteAttempt(id);
      gaveUp := count > MAX_ATTEMPTS && end != Crashed;
      if gaveUp || end == Settled {
        ClearAttempt(id);
      } else if end == Deferred {
        WriteAttempt(id, 1);
      }
      LawfulAppend(ds, Dispatch(id, if gaveUp then GivenUp else end));
    }
  }

  lemma {:induction false} LawfulAppend(ds: seq<Dispatch>, d: Dispatch)
    requires Lawful(ds) && Ends(SlotAfter(ds), d)
    ensures Lawful(ds + [d]) && SlotAfter(ds + [d]) == Leaves(SlotAfter(ds), d)
  {
    var all := ds + [d];
    assert all[..|ds|] == ds;
    assert forall i :: 0 <= i < |ds| ==> all[..i] == ds[..i];
  }
}
