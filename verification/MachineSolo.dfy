/** One owner on its own: the steps between two points of a teardown. */
module MachineSolo {
  import opened Base
  import opened Allocations
  import opened Machine
  import opened MachineRuns
  import VmNames

  // ---------------------------------------------------------------- an owner on its own

  function Drives(id: Id, events: seq<Event>): seq<Step> {
    seq(|events|, i requires 0 <= i < |events| => Drive(id, events[i]))
  }

  /** The slot after its owner took these steps undisturbed, with no leak recorded. */
  function DrivenBy(k: Slot, bounded: bool, events: seq<Event>): Slot
    decreases |events|
  {
    if events == [] || k.driver.None? then k else DrivenBy(Driven(k, events[0], bounded), bounded, events[1..])
  }

  predicate NeverLeaks(k: Slot, bounded: bool, events: seq<Event>)
    decreases |events|
  {
    events == [] || k.driver.None? ||
    (!k.driver.value.phase.Leaking? && NeverLeaks(Driven(k, events[0], bounded), bounded, events[1..]))
  }

  lemma {:induction false} RunDrives(s: Sys, id: Id, events: seq<Event>)
    requires id in s.slots && NeverLeaks(s.slots[id], !s.shutdown.NotStarted?, events)
    ensures var k := DrivenBy(s.slots[id], !s.shutdown.NotStarted?, events);
            Run(s, Drives(id, events)) == s.(slots := s.slots[id := k])
    decreases |events|
  {
    var bounded := !s.shutdown.NotStarted?;
    if events == [] {
      assert s.slots[id := s.slots[id]] == s.slots;
    } else {
      var rest := Drives(id, events[1..]);
      assert Drives(id, events) == [Drive(id, events[0])] + rest;
      RunConcat(s, [Drive(id, events[0])], rest);
      RunOne(s, Drive(id, events[0]));
      var t := DriveStep(s, id, events[0]);
      if s.slots[id].driver.None? {
        assert t == s;
        RunDrives(s, id, events[1..]);
      } else {
        var k := Driven(s.slots[id], events[0], bounded);
        assert t == s.(slots := s.slots[id := k]);
        RunDrives(t, id, events[1..]);
        assert t.slots[id := DrivenBy(k, bounded, events[1..])] == s.slots[id := DrivenBy(k, bounded, events[1..])];
      }
    }
  }

  /** The owner, undisturbed and without a leak, can take the slot from `k` to `l`. */
  ghost predicate Reaches(k: Slot, bounded: bool, l: Slot) {
    exists events :: NeverLeaks(k, bounded, events) && DrivenBy(k, bounded, events) == l
  }

  lemma ReachesSelf(k: Slot, bounded: bool)
    ensures Reaches(k, bounded, k)
  {
    assert NeverLeaks(k, bounded, []) && DrivenBy(k, bounded, []) == k;
  }

  lemma ReachesBy(k: Slot, bounded: bool, e: Event, l: Slot)
    requires k.driver.Some? && !k.driver.value.phase.Leaking? && Reaches(Driven(k, e, bounded), bounded, l)
    ensures Reaches(k, bounded, l)
  {
    var events :| NeverLeaks(Driven(k, e, bounded), bounded, events) &&
        DrivenBy(Driven(k, e, bounded), bounded, events) == l;
    assert ([e] + events)[1..] == events;
    assert NeverLeaks(k, bounded, [e] + events) && DrivenBy(k, bounded, [e] + events) == l;
  }

  /** The slot once an update of the owner went through. */
  function Written(k: Slot, v: Allocation): Slot
    requires k.entry.Some? && k.driver.Some?
  {
    k.(entry := Some(k.entry.value.(allocation := v)), channel := v, record := v, saved := k.saved + {v},
       driver := Some(After(k.driver.value, true)), stranded := None)
  }

  lemma UpdateReaches(k: Slot, bounded: bool, now: nat, l: Slot)
    requires k.entry.Some? && k.driver.Some? && k.driver.value.update.Idle? && Writes(k.driver.value.phase)
    requires Applied(k.entry.value.allocation, ChangeFor(k.driver.value.phase), now).Some?
    requires Reaches(Written(k, Applied(k.entry.value.allocation, ChangeFor(k.driver.value.phase), now).value),
        bounded, l)
    ensures Reaches(k, bounded, l)
  {
    var d := k.driver.value;
    var v := Applied(k.entry.value.allocation, ChangeFor(d.phase), now).value;
    var k1 := k.(driver := Some(d.(update := Loaded(v))));
    var k2 := SavedSlot(k, d, v);
    SavedHalf(k, bounded, now, v);
    PublishedHalf(k, bounded, now, v);
    SentHalf(k, bounded, now, v);
    var k3 := Placed(k, d, v);
    ReachesBy(k3, bounded, Proceed(now), l);
    ReachesBy(k2, bounded, Proceed(now), l);
    ReachesBy(k1, bounded, SaveDone(true), l);
    ReachesBy(k, bounded, Proceed(now), l);
  }

  /** An update whose save fails goes on where the code does. */
  lemma FailedUpdateReaches(k: Slot, bounded: bool, now: nat, l: Slot)
    requires k.entry.Some? && k.driver.Some? && k.driver.value.update.Idle? && Writes(k.driver.value.phase)
    requires Applied(k.entry.value.allocation, ChangeFor(k.driver.value.phase), now).Some?
    requires Reaches(At(k, After(k.driver.value, false)), bounded, l)
    ensures Reaches(k, bounded, l)
  {
    var d := k.driver.value;
    var k1 := At(k, d.(update := Loaded(Applied(k.entry.value.allocation, ChangeFor(d.phase), now).value)));
    assert Driven(k, Proceed(now), bounded) == k1;
    assert After(d.(update := k1.driver.value.update), false) == After(d, false);
    assert Driven(k1, SaveDone(false), bounded) == At(k, After(d, false));
    ReachesBy(k1, bounded, SaveDone(false), l);
    ReachesBy(k, bounded, Proceed(now), l);
  }

  /** The value is in the store; the entry is still to follow. */
  function SavedSlot(k: Slot, d: Driver, v: Allocation): Slot {
    At(Save(k, v).(stranded := None), d.(update := Saved(v)))
  }

  lemma SavedHalf(k: Slot, bounded: bool, now: nat, v: Allocation)
    requires k.entry.Some? && k.driver.Some? && k.driver.value.update.Idle? && Writes(k.driver.value.phase)
    requires Applied(k.entry.value.allocation, ChangeFor(k.driver.value.phase), now) == Some(v)
    ensures var d := k.driver.value;
            var k1 := k.(driver := Some(d.(update := Loaded(v))));
            && Driven(k, Proceed(now), bounded) == k1
            && Driven(k1, SaveDone(true), bounded) ==
               SavedSlot(k, d, v)
  {
  }

  /** The published entry is in place; the channel is still to follow. */
  function Placed(k: Slot, d: Driver, v: Allocation): Slot
    requires k.entry.Some?
  {
    k.(entry := Some(k.entry.value.(allocation := v)), record := v, saved := k.saved + {v}, stranded := None,
       driver := Some(d.(update := Published(v))))
  }

  lemma PublishedHalf(k: Slot, bounded: bool, now: nat, v: Allocation)
    requires k.entry.Some? && k.driver.Some? && k.driver.value.update.Idle? && Writes(k.driver.value.phase)
    ensures var d := k.driver.value;
            var saved := SavedSlot(k, d, v);
            Driven(saved, Proceed(now), bounded) == Placed(k, d, v)
  {
  }

  lemma SentHalf(k: Slot, bounded: bool, now: nat, v: Allocation)
    requires k.entry.Some? && k.driver.Some? && k.driver.value.update.Idle? && Writes(k.driver.value.phase)
    ensures Driven(Placed(k, k.driver.value, v), Proceed(now), bounded) == Written(k, v)
  {
  }

  function InPhase(k: Slot, p: Phase): Slot
    requires k.driver.Some?
  {
    k.(driver := Some(k.driver.value.(phase := p)))
  }

  lemma ReachesPhase(k: Slot, bounded: bool, e: Event, p: Phase, l: Slot)
    requires k.driver.Some? && k.driver.value.update.Idle? && !k.driver.value.phase.Leaking?
    requires !Writes(k.driver.value.phase) && !k.driver.value.phase.Releasing? && !k.driver.value.phase.Attempting?
    requires (e.Proceed? && !k.driver.value.phase.Working?) || e.Exit?
    requires Moved(k, k.driver.value, e, bounded) == p
    requires Reaches(InPhase(k, p), bounded, l)
    ensures Reaches(k, bounded, l)
  {
    assert Driven(k, e, bounded) == InPhase(k, p);
    ReachesBy(k, bounded, e, l);
  }

  /** The end of teardown: the terminal state is written and supervision given up. */
  lemma ClosingReaches(k: Slot, bounded: bool, w: AllocationState, now: nat) returns (l: Slot)
    requires k.driver.Some? &&
        k.driver.value == Driver(k.driver.value.kind, CheckingAgain(w), Idle, k.driver.value.fallback)
    requires k.entry.Some? && k.entry.value.allocation.state.Cleaning? && IsTerminal(w)
    ensures Reaches(k, bounded, l) && Closed(k, w, l)
  {
    l := LastWriteReaches(InPhase(k, Closing(w)), bounded, w, now);
    ReachesPhase(InPhase(k, Finishing(w)), bounded, Proceed(now), Closing(w), l);
    ReachesPhase(k, bounded, Proceed(now), Finishing(w), l);
  }

  /** The allocation ended in `w`; store, entry and channel agree, and nobody owns it any more. */
  ghost predicate Closed(k: Slot, w: AllocationState, l: Slot) {
    && k.entry.Some? && l.entry.Some? && l.entry.value.allocation.state == w && l.driver.None?
    && l.extras == k.extras && l.failed == k.failed && l.adrift == k.adrift
    && l.channel == l.entry.value.allocation == l.record
    && l.entry.value.allocation.request == k.entry.value.allocation.request
  }

  lemma LastWriteReaches(k: Slot, bounded: bool, w: AllocationState, now: nat) returns (l: Slot)
    requires k.driver.Some? && k.driver.value == Driver(k.driver.value.kind, Closing(w), Idle, k.driver.value.fallback)
    requires k.entry.Some? && k.entry.value.allocation.state.Cleaning? && IsTerminal(w)
    ensures Reaches(k, bounded, l) && Closed(k, w, l)
  {
    var done := Written(k, k.entry.value.allocation.(state := w, updatedAt := now));
    l := Released(done, done.driver.value);
    ReachesSelf(l, bounded);
    assert Driven(done, Proceed(now), bounded) == l;
    ReachesBy(done, bounded, Proceed(now), l);
    UpdateReaches(k, bounded, now, l);
  }

  /** The state after one admitted request. */
  function OneAllocation(config: Config, limit: nat, r: Request): Sys {
    Sys(config, limit, map[], map[0 := NewSlot(0, r, config.prefix, 0)], [], NotStarted)
  }

  lemma OneCreated(config: Config, limit: nat, r: Request)
    requires Authorized(config, r) && VmNames.VmName(config.prefix, r).Some?
    ensures Run(Start(config, limit), OneRequest(0, r)) == OneAllocation(config, limit, r)
  {
    RequestRun(Start(config, limit), 0, r);
    assert Run(Start(config, limit), OneRequest(0, r)).slots == OneAllocation(config, limit, r).slots;
  }

  /** Outside a shutdown, teardown of unfinished work goes from reading the entry again to its attempts. */
  lemma RefreshedReaches(k: Slot, w: AllocationState, now: nat, l: Slot)
    requires k.driver.Some? &&
        k.driver.value == Driver(k.driver.value.kind, Refreshing(w), Idle, k.driver.value.fallback)
    requires Live(k) && Reaches(InPhase(k, Attempting(w, k.entry.value.allocation, false, 3)), false, l)
    ensures Reaches(k, false, l)
  {
    var a := k.entry.value.allocation;
    ReachesPhase(InPhase(k, Budgeting(w, a)), false, Proceed(now), Attempting(w, a, false, 3), l);
    ReachesPhase(k, false, Proceed(now), Budgeting(w, a), l);
  }
}
