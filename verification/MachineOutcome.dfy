/** How work ends: the state a teardown leaves, told by how the worker ended, whether its token was
    signalled by then, and whether a cleanup succeeded. crates/flanforge-manager/src/lifecycle.rs. */
module MachineOutcome {
  import opened Base
  import opened Allocations
  import opened Machine
  import opened MachineSafety
  import opened MachineIdentity
  import opened MachineRuns
  import opened MachineProgress

  // ---------------------------------------------------------------- from the worker's end to the decision

  /** Until the decision, the owner remembers how its worker ended. */
  predicate Remembers(p: Phase, ok: bool) {
    !p.Working? && (p.NotingExit? ==> !ok) && (p.Deciding? ==> p.ok == ok)
  }

  lemma MovedRemembers(k: Slot, d: Driver, e: Event, bounded: bool, ok: bool)
    requires Remembers(d.phase, ok)
    ensures Remembers(Moved(k, d, e, bounded), ok)
  {
  }

  lemma DrivenRemembers(k: Slot, e: Event, bounded: bool, ok: bool)
    requires k.driver.Some? && Remembers(k.driver.value.phase, ok)
    ensures Driven(k, e, bounded).driver.Some? ==> Remembers(Driven(k, e, bounded).driver.value.phase, ok)
  {
    var d := k.driver.value;
    if d.update.Idle? && !(e.Abort? && MayAbort(d)) {
      ResumedRemembers(k, d, e, bounded, ok);
    } else {
      AfterRemembers(d, true, ok);
      AfterRemembers(d, false, ok);
    }
  }

  lemma AfterRemembers(d: Driver, saved: bool, ok: bool)
    requires Remembers(d.phase, ok)
    ensures Remembers(After(d, saved).phase, ok)
  {
  }

  lemma ResumedRemembers(k: Slot, d: Driver, e: Event, bounded: bool, ok: bool)
    requires Remembers(d.phase, ok)
    ensures Resumed(k, d, e, bounded).driver.Some? ==> Remembers(Resumed(k, d, e, bounded).driver.value.phase, ok)
  {
    AfterRemembers(d, false, ok);
    MovedRemembers(k, d, e, bounded, ok);
  }

  lemma {:induction false} RunRemembers(s: Sys, steps: seq<Step>, id: Id, ok: bool)
    requires AllHeld(s.slots) && OwnedThroughout(s, steps, id) && id in s.slots && s.slots[id].driver.Some?
    requires Remembers(s.slots[id].driver.value.phase, ok)
    ensures var t := Run(s, steps);
            AllHeld(t.slots) && id in t.slots && t.slots[id].driver.Some? &&
            Remembers(t.slots[id].driver.value.phase, ok)
  {
    if steps != [] {
      var before, step := steps[..|steps| - 1], steps[|steps| - 1];
      ThroughoutPrefix(s, steps, id);
      RunRemembers(s, before, id, ok);
      var t := Run(s, before);
      NextHeld(t, step);
      if step.Drive? && step.id == id {
        DrivenRemembers(t.slots[id], step.event, !t.shutdown.NotStarted?, ok);
      } else {
        OthersLeaveOwner(t, step, id);
      }
    }
  }

  // ---------------------------------------------------------------- from the decision to the end

  /** The state the owner is on its way to. */
  predicate Follows(p: Phase, want: AllocationState, cleaned: bool) {
    match p
    case Checking(w) => w == want && !cleaned
    case Entering(w) => w == want && !cleaned
    case Refreshing(w) => w == want && !cleaned
    case Budgeting(w, _) => w == want && !cleaned
    case Attempting(w, _, _, _) => w == want && !cleaned
    case Leaking(_) => !cleaned
    case Rechecking => !cleaned
    case NotingFailure => !cleaned
    case CheckingAgain(f) => f == Ends(want, cleaned)
    case EnteringAgain(f) => f == Ends(want, cleaned)
    case Finishing(f) => f == Ends(want, cleaned)
    case Closing(f) => f == Ends(want, cleaned)
    case Releasing => true
    case _ => false
  }

  function Ends(want: AllocationState, cleaned: bool): AllocationState {
    if cleaned then want else Failed
  }

  /** The owner is on its way, and what is finished already is finished as it should be. */
  predicate Bound(k: Slot, want: AllocationState, cleaned: bool) {
    && k.driver.Some? && Follows(k.driver.value.phase, want, cleaned)
    && (k.entry.Some? && Terminal(k.entry.value.allocation) ==> k.entry.value.allocation.state == Ends(want, cleaned))
    && (Terminal(k.channel) ==> k.channel.state == Ends(want, cleaned))
  }

  lemma AfterFollows(d: Driver, ok: bool, want: AllocationState, cleaned: bool)
    requires Follows(d.phase, want, cleaned)
    ensures Follows(After(d, ok).phase, want, cleaned)
  {
  }

  lemma MovedFollows(k: Slot, d: Driver, e: Event, bounded: bool, want: AllocationState, cleaned: bool)
    requires Follows(d.phase, want, cleaned)
    ensures Follows(Moved(k, d, e, bounded), want, cleaned || (d.phase.Attempting? && e == CleanupDone(true)))
  {
  }

  lemma LoadBound(id: Id, k: Slot, d: Driver, c: Change, now: nat, want: AllocationState, cleaned: bool)
    requires k.driver == Some(d) && Bound(k, want, cleaned)
    ensures Bound(Load(k, d, c, now), want, cleaned)
  {
    AfterFollows(d, false, want, cleaned);
  }

  lemma ResumedBound(id: Id, k: Slot, d: Driver, e: Event, bounded: bool, want: AllocationState, cleaned: bool)
    requires k.driver == Some(d) && d.update.Idle? && Owned(id, k) && Bound(k, want, cleaned)
    ensures var k' := Resumed(k, d, e, bounded);
            k'.driver.Some? ==> Bound(k', want, cleaned || (d.phase.Attempting? && e == CleanupDone(true)))
  {
    if Writes(d.phase) && e.Proceed? {
      LoadBound(id, k, d, ChangeFor(d.phase), e.now, want, cleaned);
    } else {
      MovedFollows(k, d, e, bounded, want, cleaned);
    }
  }

  /** Of an owner's writes only the terminal transition makes a terminal value. */
  lemma ValueBound(id: Id, k: Slot, d: Driver, want: AllocationState, cleaned: bool)
    requires k.driver == Some(d) && !d.update.Idle? && Owned(id, k) && Bound(k, want, cleaned)
    ensures Terminal(d.update.value) ==> d.update.value.state == Ends(want, cleaned)
  {
  }

  lemma SavedBound(k: Slot, d: Driver, v: Allocation, ok: bool, want: AllocationState, cleaned: bool)
    requires k.driver == Some(d) && Bound(k, want, cleaned)
    ensures Bound(SaveReturned(k, d, v, ok), want, cleaned)
  {
    AfterFollows(d, false, want, cleaned);
  }

  lemma PublishedBound(k: Slot, d: Driver, v: Allocation, want: AllocationState, cleaned: bool)
    requires k.driver == Some(d) && Bound(k, want, cleaned) && (Terminal(v) ==> v.state == Ends(want, cleaned))
    ensures Bound(Publish(k, d, v), want, cleaned)
  {
    AfterFollows(d, false, want, cleaned);
  }

  lemma SentBound(k: Slot, d: Driver, v: Allocation, want: AllocationState, cleaned: bool)
    requires k.driver == Some(d) && Bound(k, want, cleaned) && (Terminal(v) ==> v.state == Ends(want, cleaned))
    ensures Bound(Send(k, d, v), want, cleaned)
  {
    AfterFollows(d, true, want, cleaned);
  }

  lemma DrivenBound(id: Id, k: Slot, e: Event, bounded: bool, want: AllocationState, cleaned: bool)
    requires Owned(id, k) && Bound(k, want, cleaned)
    ensures var k' := Driven(k, e, bounded);
            k'.driver.Some? ==>
              Bound(k', want, cleaned || (k.driver.value.update.Idle? && k.driver.value.phase.Attempting? &&
                                          e == CleanupDone(true)))
  {
    var d := k.driver.value;
    if e.Abort? && MayAbort(d) {
    } else if d.update.Idle? {
      ResumedBound(id, k, d, e, bounded, want, cleaned);
    } else {
      ValueBound(id, k, d, want, cleaned);
      SavedBound(k, d, d.update.value, if e.SaveDone? then e.ok else false, want, cleaned);
      PublishedBound(k, d, d.update.value, want, cleaned);
      SentBound(k, d, d.update.value, want, cleaned);
    }
  }

  /** A cleanup attempt of the allocation succeeded in these steps. */
  ghost predicate CleanedIn(s: Sys, steps: seq<Step>, id: Id) {
    exists n :: 0 <= n < |steps| && CleansUp(Run(s, steps[..n]), steps[n], id)
  }

  lemma CleanedMore(s: Sys, steps: seq<Step>, step: Step, id: Id)
    ensures CleanedIn(s, steps + [step], id) <==> CleanedIn(s, steps, id) || CleansUp(Run(s, steps), step, id)
  {
    var more := steps + [step];
    assert more[..|steps|] == steps && more[|steps|] == step;
    if n :| 0 <= n < |more| && CleansUp(Run(s, more[..n]), more[n], id) {
      assert n < |steps| ==> more[..n] == steps[..n] && more[n] == steps[n];
    }
    if n :| 0 <= n < |steps| && CleansUp(Run(s, steps[..n]), steps[n], id) {
      assert more[..n] == steps[..n] && more[n] == steps[n];
    }
    if CleansUp(Run(s, steps), step, id) {
      assert CleansUp(Run(s, more[..|steps|]), more[|steps|], id);
    }
  }

  lemma CleanedLast(s: Sys, steps: seq<Step>, id: Id)
    requires steps != []
    ensures var before := steps[..|steps| - 1];
            CleanedIn(s, steps, id) <==> CleanedIn(s, before, id) || CleansUp(Run(s, before), steps[|steps| - 1], id)
  {
    assert steps == steps[..|steps| - 1] + [steps[|steps| - 1]];
    CleanedMore(s, steps[..|steps| - 1], steps[|steps| - 1], id);
  }

  /** Every step but its own leaves what is shown of the allocation, unless it drops the entry. */
  lemma OthersLeaveShown(s: Sys, step: Step, id: Id)
    requires AllOwned(s.slots) && !step.Spawn? && id in s.slots && !(step.Drive? && step.id == id)
    ensures id in Next(s, step).slots
    ensures var k, k' := s.slots[id], Next(s, step).slots[id];
            && k'.channel == k.channel
            && (k'.entry.Some? ==> k.entry.Some? && k'.entry.value.allocation == k.entry.value.allocation)
  {
    assert Owned(id, s.slots[id]);
    OthersBeside(s, step, id);
  }

  lemma OthersLeaveBound(s: Sys, step: Step, id: Id, want: AllocationState, cleaned: bool)
    requires AllOwned(s.slots) && AllHeld(s.slots) && !step.Spawn? && id in s.slots
    requires Bound(s.slots[id], want, cleaned) && !(step.Drive? && step.id == id)
    ensures id in Next(s, step).slots && Bound(Next(s, step).slots[id], want, cleaned)
  {
    OthersLeaveOwner(s, step, id);
    OthersLeaveShown(s, step, id);
  }

  lemma {:induction false} RunBound(s: Sys, steps: seq<Step>, id: Id, want: AllocationState)
    requires AllOwned(s.slots) && AllHeld(s.slots) && Serial(steps) && OwnedThroughout(s, steps, id)
    requires id in s.slots && Bound(s.slots[id], want, false)
    ensures var t := Run(s, steps);
            AllOwned(t.slots) && AllHeld(t.slots) && id in t.slots &&
            Bound(t.slots[id], want, CleanedIn(s, steps, id))
  {
    if steps != [] {
      var before, step := steps[..|steps| - 1], steps[|steps| - 1];
      ThroughoutPrefix(s, steps, id);
      RunBound(s, before, id, want);
      CleanedLast(s, steps, id);
      BoundStep(Run(s, before), step, id, want, CleanedIn(s, before, id));
    }
  }

  lemma BoundStep(s: Sys, step: Step, id: Id, want: AllocationState, cleaned: bool)
    requires AllOwned(s.slots) && AllHeld(s.slots) && !step.Spawn? && id in s.slots && Bound(s.slots[id], want, cleaned)
    requires id in Next(s, step).slots && Next(s, step).slots[id].driver.Some?
    ensures AllOwned(Next(s, step).slots) && AllHeld(Next(s, step).slots)
    ensures Bound(Next(s, step).slots[id], want, cleaned || CleansUp(s, step, id))
  {
    NextHeld(s, step);
    NextOwned(s, step);
    if step.Drive? && step.id == id {
      assert Owned(id, s.slots[id]);
      DrivenBound(id, s.slots[id], step.event, !s.shutdown.NotStarted?, want, cleaned);
    } else {
      OthersLeaveBound(s, step, id, want, cleaned);
    }
  }

  // ---------------------------------------------------------------- the outcome

  /** From the decision on, in every serial run and whatever fails: once the work is finished, it is
      Cancelled exactly when the token was signalled at the decision and a cleanup succeeded since,
      Completed exactly when the worker returned well, the token was not, and a cleanup succeeded, and
      Failed in every other case. */
  lemma DecisionIsKept(config: Config, limit: nat, steps: seq<Step>, now: nat, more: seq<Step>, id: Id)
    requires Serial(steps) && Serial(more)
    requires var s := Run(Start(config, limit), steps);
             && id in s.slots && s.slots[id].driver.Some? && s.slots[id].driver.value.update.Idle?
             && s.slots[id].driver.value.phase.Deciding?
             && OwnedThroughout(Next(s, Drive(id, Proceed(now))), more, id)
    ensures var s := Run(Start(config, limit), steps);
            var ok, cancelled := s.slots[id].driver.value.phase.ok, s.slots[id].cancelled;
            var t := Next(s, Drive(id, Proceed(now)));
            var k, cleaned := Run(t, more).slots[id], CleanedIn(t, more, id);
            && id in Run(t, more).slots
            && (k.entry.Some? && Terminal(k.entry.value.allocation) ==>
                && (k.entry.value.allocation.state.Cancelled? <==> cleaned && cancelled)
                && (k.entry.value.allocation.state.Completed? <==> cleaned && ok && !cancelled)
                && (k.entry.value.allocation.state.Failed? <==> !cleaned || (!ok && !cancelled)))
            && (Terminal(k.channel) ==>
                && (k.channel.state.Cancelled? <==> cleaned && cancelled)
                && (k.channel.state.Completed? <==> cleaned && ok && !cancelled)
                && (k.channel.state.Failed? <==> !cleaned || (!ok && !cancelled)))
  {
    var s := Run(Start(config, limit), steps);
    RunOwned(config, limit, steps);
    RunHeld(config, limit, steps);
    var want := DecidedRun(s, now, more, id);
  }

  lemma DecidedRun(s: Sys, now: nat, more: seq<Step>, id: Id) returns (want: AllocationState)
    requires AllOwned(s.slots) && AllHeld(s.slots) && Serial(more)
    requires id in s.slots && s.slots[id].driver.Some? && s.slots[id].driver.value.update.Idle?
    requires s.slots[id].driver.value.phase.Deciding?
    requires OwnedThroughout(Next(s, Drive(id, Proceed(now))), more, id)
    ensures var t := Next(s, Drive(id, Proceed(now)));
            id in Run(t, more).slots && Bound(Run(t, more).slots[id], want, CleanedIn(t, more, id))
    ensures IsTerminal(want)
    ensures want.Cancelled? <==> s.slots[id].cancelled
    ensures want.Completed? <==> !s.slots[id].cancelled && s.slots[id].driver.value.phase.ok
  {
    assert Owned(id, s.slots[id]);
    want := Decides(id, s.slots[id], now, !s.shutdown.NotStarted?);
    NextOwned(s, Drive(id, Proceed(now)));
    NextHeld(s, Drive(id, Proceed(now)));
    RunBound(Next(s, Drive(id, Proceed(now))), more, id, want);
  }

  /** The decision itself. */
  lemma Decides(id: Id, k: Slot, now: nat, bounded: bool) returns (want: AllocationState)
    requires Owned(id, k) && k.driver.Some? && k.driver.value.update.Idle? && k.driver.value.phase.Deciding?
    ensures Bound(Driven(k, Proceed(now), bounded), want, false)
    ensures IsTerminal(want)
    ensures want.Cancelled? <==> k.cancelled
    ensures want.Completed? <==> !k.cancelled && k.driver.value.phase.ok
  {
    want := if k.cancelled then Cancelled else if k.driver.value.phase.ok then Completed else Failed;
    assert Driven(k, Proceed(now), bounded).driver.value.phase == Checking(want);
  }

  /** And the decision is about how the worker ended: it returned well, or it returned an error or was
      dropped, which is noted first, however long that takes. */
  lemma EndIsRemembered(config: Config, limit: nat, steps: seq<Step>, end: Event, more: seq<Step>, id: Id)
    requires end.Exit? || end.Abort?
    requires var s := Run(Start(config, limit), steps);
             && id in s.slots && s.slots[id].driver.Some? && s.slots[id].driver.value.update.Idle?
             && s.slots[id].driver.value.phase.Working?
             && OwnedThroughout(Next(s, Drive(id, end)), more, id)
    ensures var s := Next(Run(Start(config, limit), steps), Drive(id, end));
            && id in s.slots && s.slots[id].driver.Some?
            && s.slots[id].driver.value.phase == if end == Exit(true) then Deciding(true) else NotingExit
    ensures var t := Run(Next(Run(Start(config, limit), steps), Drive(id, end)), more);
            && id in t.slots && t.slots[id].driver.Some?
            && (t.slots[id].driver.value.phase.Deciding? ==>
                (t.slots[id].driver.value.phase.ok <==> end == Exit(true)))
  {
    var s := Run(Start(config, limit), steps);
    RunHeld(config, limit, steps);
    NextHeld(s, Drive(id, end));
    var t := Next(s, Drive(id, end));
    assert more[..0] == [];
    assert id in Run(t, more[..0]).slots;
    RunRemembers(t, more, id, end == Exit(true));
  }
}
