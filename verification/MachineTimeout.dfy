/** Two ways a failed cleanup escapes the report: between the two locks of `collect_leaks` after a wait
    that timed out, and of work nobody awaited. */
module MachineTimeout {
  import opened Base
  import opened Allocations
  import opened Machine
  import opened MachineRuns
  import opened MachineSolo
  import opened MachineShutdown
  import VmNames

  /** The steps from the refreshed record to the failed cleanup under a deadline. */
  lemma AttemptReaches(k: Slot, now: nat) returns (l: Slot)
    requires k.driver.Some? &&
        k.driver.value == Driver(k.driver.value.kind, Refreshing(Cancelled), Idle, k.driver.value.fallback)
    requires Live(k)
    ensures Reaches(k, true, l)
    ensures l == InPhase(k, Leaking(k.entry.value.allocation)).(failed := true)
  {
    var v := k.entry.value.allocation;
    var trying := InPhase(k, Attempting(Cancelled, v, true, 1));
    l := InPhase(k, Leaking(v)).(failed := true);
    ReachesSelf(l, true);
    assert Driven(trying, CleanupDone(false), true) == l;
    ReachesBy(trying, true, CleanupDone(false), l);
    ReachesPhase(InPhase(k, Budgeting(Cancelled, v)), true, Proceed(now), Attempting(Cancelled, v, true, 1), l);
    ReachesPhase(k, true, Proceed(now), Budgeting(Cancelled, v), l);
  }

  /** The steps from a signalled worker's return to the failed cleanup. */
  lemma FailureReaches(k: Slot, now: nat) returns (l: Slot)
    requires k.driver.Some? && k.driver.value == Driver(Worker, Working, Idle, k.driver.value.fallback)
    requires k.entry.Some? && k.entry.value.allocation.state.Requested? && k.cancelled
    ensures Reaches(k, true, l) && FailedIn(k, l)
  {
    l := EnteringFails(InPhase(k, Entering(Cancelled)), now);
    ReachesPhase(InPhase(k, Checking(Cancelled)), true, Proceed(now), Entering(Cancelled), l);
    ReachesPhase(InPhase(k, Deciding(true)), true, Proceed(now), Checking(Cancelled), l);
    ReachesPhase(k, true, Exit(true), Deciding(true), l);
  }

  /** The cleanup failed, and the failure is about to be recorded. */
  ghost predicate FailedIn(k: Slot, l: Slot) {
    && l.failed && l.entry.Some? && l.entry.value.allocation.state.Cleaning? && l.driver.Some? && k.driver.Some?
    && l.driver.value == Driver(Worker, Leaking(l.entry.value.allocation), Idle, k.driver.value.fallback)
  }

  lemma EnteringFails(k: Slot, now: nat) returns (l: Slot)
    requires k.driver.Some? && k.driver.value == Driver(Worker, Entering(Cancelled), Idle, k.driver.value.fallback)
    requires k.entry.Some? && k.entry.value.allocation.state.Requested?
    ensures Reaches(k, true, l) && FailedIn(k, l)
  {
    l := AttemptReaches(Written(k, k.entry.value.allocation.(state := Cleaning, updatedAt := now)), now);
    UpdateReaches(k, true, now, l);
  }

  /** The steps after the leak is recorded, up to the durable Failed record. */
  lemma RecordReaches(k: Slot, now: nat) returns (l: Slot)
    requires k.driver.Some? && k.driver.value == Driver(Worker, Rechecking, Idle, k.driver.value.fallback)
    requires k.entry.Some? && k.entry.value.allocation.state.Cleaning?
    ensures Reaches(k, true, l)
    ensures l.entry.Some? && l.entry.value.allocation.state.Failed? && l.failed == k.failed
  {
    var noting := InPhase(k, NotingFailure);
    var v := k.entry.value.allocation.(error := Some(CleanupExhausted), updatedAt := now);
    l := ClosingReaches(Written(noting, v), true, Failed, now);
    UpdateReaches(noting, true, now, l);
    ReachesPhase(k, true, Proceed(now), NotingFailure, l);
  }

  function Opening(r: Request): seq<Step> {
    OneRequest(0, r) + [ShutdownStart([0])]
  }

  lemma Opened(config: Config, limit: nat, r: Request) returns (s: Sys)
    requires Authorized(config, r) && VmNames.VmName(config.prefix, r).Some?
    ensures s == Run(Start(config, limit), Opening(r))
    ensures s == Sys(config, limit, map[], s.slots, [], Waiting([0], 0)) && s.slots.Keys == {0}
    ensures s.slots[0] == NewSlot(0, r, config.prefix, 0).(cancelled := true)
  {
    OneCreated(config, limit, r);
    var one := OneAllocation(config, limit, r);
    s := ClosedOne(one);
    RunConcat(Start(config, limit), OneRequest(0, r), [ShutdownStart([0])]);
    RunOne(one, ShutdownStart([0]));
  }

  lemma ClosedOne(one: Sys) returns (s: Sys)
    requires one.shutdown.NotStarted? && one.slots.Keys == {0} && IsAwaited(one.slots[0])
    ensures s == Next(one, ShutdownStart([0])) == one.(shutdown := Waiting([0], 0), slots := s.slots)
    ensures s.slots.Keys == {0} && s.slots[0] == one.slots[0].(cancelled := true)
  {
    assert Enumerates([0], one.slots);
    s := Close(one, [0]);
  }

  /** A serial run whose wait timed out can end with an empty report although the bounded cleanup
      of an awaited allocation failed: the failure is recorded after the recorded leaks were taken,
      and the allocation is terminal before the entries are looked at. */
  lemma TimedOutReportMissesFailure(config: Config, limit: nat, r: Request) returns (steps: seq<Step>)
    requires Authorized(config, r) && VmNames.VmName(config.prefix, r).Some?
    ensures Serial(steps)
    ensures var s := Run(Start(config, limit), steps);
            s.shutdown == Reported([0], false, []) && 0 in s.slots && s.slots[0].failed
  {
    var start, s := GapReached(config, limit, r);
    var events, l := Recording(s);
    steps := start + Drives(0, events) + [ShutdownCollect];
    RunConcat(Start(config, limit), start, Drives(0, events));
    RunConcat(Start(config, limit), start + Drives(0, events), [ShutdownCollect]);
    GapCollected(s.(slots := s.slots[0 := l]));
    SerialConcat(start, Drives(0, events));
    SerialConcat(start + Drives(0, events), [ShutdownCollect]);
  }

  /** The run up to the point between the two locks, with the leak just recorded. */
  lemma GapReached(config: Config, limit: nat, r: Request) returns (steps: seq<Step>, s: Sys)
    requires Authorized(config, r) && VmNames.VmName(config.prefix, r).Some?
    ensures Serial(steps) && s == Run(Start(config, limit), steps)
    ensures s.shutdown == Collecting([0], false, []) && 0 in s.slots && s.slots[0].failed
    ensures s.slots[0].entry.Some? && s.slots[0].entry.value.allocation.state.Cleaning? && s.slots[0].driver.Some?
    ensures s.slots[0].driver.value == Driver(Worker, Rechecking, Idle, s.slots[0].driver.value.fallback)
  {
    var s1 := Opened(config, limit, r);
    var events, l := Failing(s1);
    s := GapTaken(s1.(slots := s1.slots[0 := l]), l);
    steps := Opening(r) + Drives(0, events) + Gap();
    RunConcat(Start(config, limit), Opening(r), Drives(0, events));
    RunConcat(Start(config, limit), Opening(r) + Drives(0, events), Gap());
    SerialConcat(Opening(r), Drives(0, events));
    SerialConcat(Opening(r) + Drives(0, events), Gap());
  }

  lemma SerialConcat(a: seq<Step>, b: seq<Step>)
    requires Serial(a) && Serial(b)
    ensures Serial(a + b)
  {
  }

  lemma Failing(s: Sys) returns (events: seq<Event>, l: Slot)
    requires s.shutdown == Waiting([0], 0) && 0 in s.slots
    requires s.slots[0].driver.Some? &&
        s.slots[0].driver.value == Driver(Worker, Working, Idle, s.slots[0].driver.value.fallback)
    requires s.slots[0].entry.Some? && s.slots[0].entry.value.allocation.state.Requested? && s.slots[0].cancelled
    ensures Run(s, Drives(0, events)) == s.(slots := s.slots[0 := l])
    ensures l.failed && l.entry.Some? && l.entry.value.allocation.state.Cleaning? && l.driver.Some?
    ensures l.driver.value == Driver(Worker, Leaking(l.entry.value.allocation), Idle, s.slots[0].driver.value.fallback)
  {
    l := FailureReaches(s.slots[0], 0);
    events :| NeverLeaks(s.slots[0], true, events) && DrivenBy(s.slots[0], true, events) == l;
    RunDrives(s, 0, events);
  }

  lemma Recording(s: Sys) returns (events: seq<Event>, l: Slot)
    requires s.shutdown.Collecting? && 0 in s.slots
    requires s.slots[0].driver.Some? &&
        s.slots[0].driver.value == Driver(Worker, Rechecking, Idle, s.slots[0].driver.value.fallback)
    requires s.slots[0].entry.Some? && s.slots[0].entry.value.allocation.state.Cleaning?
    ensures Run(s, Drives(0, events)) == s.(slots := s.slots[0 := l])
    ensures l.entry.Some? && l.entry.value.allocation.state.Failed? && l.failed == s.slots[0].failed
  {
    l := RecordReaches(s.slots[0], 0);
    events :| NeverLeaks(s.slots[0], true, events) && DrivenBy(s.slots[0], true, events) == l;
    RunDrives(s, 0, events);
  }

  /** The wait times out, the recorded leaks are taken, and only then is this one recorded. */
  function Gap(): seq<Step> {
    [ShutdownWaitEnd] + [ShutdownTake] + [Drive(0, Proceed(0))]
  }

  lemma GapTaken(s: Sys, l: Slot) returns (t: Sys)
    requires s.shutdown == Waiting([0], 0) && s.leaked == [] && s.slots.Keys == {0} && s.slots[0] == l && l.entry.Some?
    requires l.driver.Some? &&
        l.driver.value == Driver(Worker, Leaking(l.entry.value.allocation), Idle, l.driver.value.fallback)
    ensures t == Run(s, Gap())
    ensures t.slots.Keys == {0} && t.slots[0] == InPhase(l, Rechecking) && t.shutdown == Collecting([0], false, [])
  {
    t := DriveStep(Take(WaitEnd(s)), 0, Proceed(0));
    assert Driven(l, Proceed(0), true) == InPhase(l, Rechecking);
    RunOne(s, ShutdownWaitEnd);
    RunConcat(s, [ShutdownWaitEnd], [ShutdownTake]);
    RunOne(WaitEnd(s), ShutdownTake);
    RunConcat(s, [ShutdownWaitEnd] + [ShutdownTake], [Drive(0, Proceed(0))]);
    RunOne(Take(WaitEnd(s)), Drive(0, Proceed(0)));
  }

  lemma GapCollected(s: Sys)
    requires s.shutdown == Collecting([0], false, []) && 0 in s.slots && !Live(s.slots[0])
    ensures Run(s, [ShutdownCollect]) == s.(shutdown := Reported([0], false, []))
  {
    RunOne(s, ShutdownCollect);
    assert [0][..0] == [];
    assert Collected([], [], Entries(s.slots)) == [];
  }

  // ---------------------------------------------------------------- a failure nobody awaited

  /** A worker whose store fails: cleanup succeeds, nothing is recorded, and supervision ends. */
  lemma LeftBehind(k: Slot, now: nat) returns (l: Slot)
    requires k.driver.Some? && k.driver.value == Driver(Worker, Working, Idle, k.driver.value.fallback)
    requires k.entry.Some? && k.entry.value.allocation.state.Requested? && !k.cancelled
    ensures Reaches(k, false, l)
    ensures l.entry == Some(k.entry.value.(supervised := false)) && l.driver.None?
  {
    var a := k.entry.value.allocation;
    l := GivesUp(InPhase(k, CheckingAgain(Completed)).(cleaned := true), now);
    var trying := InPhase(k, Attempting(Completed, a, false, 3));
    assert Driven(trying, CleanupDone(true), false) == InPhase(k, CheckingAgain(Completed)).(cleaned := true);
    ReachesBy(trying, false, CleanupDone(true), l);
    RefreshedReaches(InPhase(k, Refreshing(Completed)), Completed, now, l);
    SkipsCleaning(k, now, l);
  }

  lemma SkipsCleaning(k: Slot, now: nat, l: Slot)
    requires k.driver.Some? && k.driver.value == Driver(Worker, Working, Idle, k.driver.value.fallback)
    requires k.entry.Some? && k.entry.value.allocation.state.Requested? && !k.cancelled
    requires Reaches(InPhase(k, Refreshing(Completed)), false, l)
    ensures Reaches(k, false, l)
  {
    FailedUpdateReaches(InPhase(k, Entering(Completed)), false, now, l);
    ReachesPhase(InPhase(k, Checking(Completed)), false, Proceed(now), Entering(Completed), l);
    ReachesPhase(InPhase(k, Deciding(true)), false, Proceed(now), Checking(Completed), l);
    ReachesPhase(k, false, Exit(true), Deciding(true), l);
  }

  lemma GivesUp(k: Slot, now: nat) returns (l: Slot)
    requires k.driver.Some? && k.driver.value == Driver(Worker, CheckingAgain(Completed), Idle, k.driver.value.fallback)
    requires k.entry.Some? && k.entry.value.allocation.state.Requested?
    ensures Reaches(k, false, l)
    ensures l.entry == Some(k.entry.value.(supervised := false)) && l.driver.None?
  {
    var releasing := InPhase(k, Releasing);
    l := Released(releasing, releasing.driver.value);
    ReachesSelf(l, false);
    assert Driven(releasing, Proceed(now), false) == l;
    ReachesBy(releasing, false, Proceed(now), l);
    FailedUpdateReaches(InPhase(k, EnteringAgain(Completed)), false, now, l);
    ReachesPhase(k, false, Proceed(now), EnteringAgain(Completed), l);
  }

  /** An operator's cancel under the deadline, with the store still failing. */
  lemma CancelFails(k: Slot, now: nat) returns (l: Slot)
    requires k.driver.Some? && k.driver.value == Driver(Operator, Checking(Cancelled), Idle, k.driver.value.fallback)
    requires k.entry.Some? && k.entry.value.allocation.state.Requested?
    ensures Reaches(k, true, l)
    ensures l.failed && l.entry == k.entry
  {
    l := AttemptReaches(InPhase(k, Refreshing(Cancelled)), now);
    FailedUpdateReaches(InPhase(k, Entering(Cancelled)), true, now, l);
    ReachesPhase(k, true, Proceed(now), Entering(Cancelled), l);
  }

  /** The wait of an empty snapshot is over at once; then the operator comes and the leaks are taken. */
  function EmptyWait(): seq<Step> {
    [ShutdownStart([])] + [ShutdownWaitEnd] + [Cancel(0)] + [ShutdownTake]
  }

  lemma EmptyWaited(s: Sys) returns (t: Sys)
    requires s.shutdown.NotStarted? && s.leaked == [] && s.slots.Keys == {0} && s.slots[0].driver.None?
    requires Live(s.slots[0]) && !s.slots[0].entry.value.supervised && !s.slots[0].entry.value.terminalizing
    ensures t == Run(s, EmptyWait()) && t.shutdown == Collecting([], true, []) && t.slots.Keys == {0}
    ensures t.slots[0] == CancelSlot(s.slots[0])
  {
    assert Enumerates([], s.slots);
    var a := Close(s, []);
    assert Signalled(s.slots, []) == s.slots;
    var b := WaitEnd(a);
    var c := CancelStep(b, 0);
    t := Take(c);
    RunOne(s, ShutdownStart([]));
    RunConcat(s, [ShutdownStart([])], [ShutdownWaitEnd]);
    RunOne(a, ShutdownWaitEnd);
    RunConcat(s, [ShutdownStart([])] + [ShutdownWaitEnd], [Cancel(0)]);
    RunOne(b, Cancel(0));
    RunConcat(s, [ShutdownStart([])] + [ShutdownWaitEnd] + [Cancel(0)], [ShutdownTake]);
    RunOne(c, ShutdownTake);
  }

  /** A serial run whose wait was complete can end with an empty report although a bounded cleanup
      failed and its allocation is unfinished: a worker gave it up before the snapshot, and a cancel
      took it up after. */
  lemma UnawaitedFailureIsNotReported(config: Config, limit: nat, r: Request) returns (steps: seq<Step>)
    requires Authorized(config, r) && VmNames.VmName(config.prefix, r).Some?
    ensures Serial(steps)
    ensures var s := Run(Start(config, limit), steps);
            s.shutdown == Reported([], true, []) && 0 in s.slots && s.slots[0].failed && Live(s.slots[0])
  {
    var first, s := GivenUp(config, limit, r);
    var t := EmptyWaited(s);
    var tail := CancelCollected(t);
    steps := first + EmptyWait() + tail;
    RunConcat(Start(config, limit), first, EmptyWait());
    RunConcat(Start(config, limit), first + EmptyWait(), tail);
    SerialConcat(first, EmptyWait());
    SerialConcat(first + EmptyWait(), tail);
  }

  /** The cancel's cleanup fails after the take, and then the entries are looked at. */
  lemma CancelCollected(s: Sys) returns (steps: seq<Step>)
    requires s.shutdown == Collecting([], true, []) && 0 in s.slots && s.slots[0].driver.Some?
    requires s.slots[0].driver.value == Driver(Operator, Checking(Cancelled), Idle, s.slots[0].driver.value.fallback)
    requires s.slots[0].entry.Some? && s.slots[0].entry.value.allocation.state.Requested?
    ensures Serial(steps)
    ensures var t := Run(s, steps);
            t.shutdown == Reported([], true, []) && 0 in t.slots && t.slots[0].failed && Live(t.slots[0])
  {
    var l := CancelFails(s.slots[0], 0);
    var events :| NeverLeaks(s.slots[0], true, events) && DrivenBy(s.slots[0], true, events) == l;
    RunDrives(s, 0, events);
    steps := Drives(0, events) + [ShutdownCollect];
    RunConcat(s, Drives(0, events), [ShutdownCollect]);
    NothingCollected(s.(slots := s.slots[0 := l]));
    SerialConcat(Drives(0, events), [ShutdownCollect]);
  }

  /** With nothing taken and nothing awaited the report is empty. */
  lemma NothingCollected(t: Sys)
    requires t.shutdown == Collecting([], true, [])
    ensures Run(t, [ShutdownCollect]) == t.(shutdown := Reported([], true, []))
  {
    RunOne(t, ShutdownCollect);
  }

  lemma GivenUp(config: Config, limit: nat, r: Request) returns (steps: seq<Step>, s: Sys)
    requires Authorized(config, r) && VmNames.VmName(config.prefix, r).Some?
    ensures Serial(steps) && s == Run(Start(config, limit), steps)
    ensures s.shutdown.NotStarted? && s.leaked == [] && s.slots.Keys == {0} && s.slots[0].driver.None?
    ensures s.slots[0].entry.Some? && s.slots[0].entry.value.allocation.state.Requested?
    ensures !s.slots[0].entry.value.supervised && !s.slots[0].entry.value.terminalizing
  {
    OneCreated(config, limit, r);
    var one := OneAllocation(config, limit, r);
    var l := LeftBehind(one.slots[0], 0);
    var events :| NeverLeaks(one.slots[0], false, events) && DrivenBy(one.slots[0], false, events) == l;
    RunDrives(one, 0, events);
    RunConcat(Start(config, limit), OneRequest(0, r), Drives(0, events));
    steps := OneRequest(0, r) + Drives(0, events);
    s := one.(slots := one.slots[0 := l]);
    SerialConcat(OneRequest(0, r), Drives(0, events));
  }
}
