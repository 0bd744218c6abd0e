/** What overlapping updates of one allocation cost: a stale value published after the terminal
    one brings a finished allocation back to life. */
module MachineOverlap {
  import opened Base
  import opened Allocations
  import opened Machine
  import opened MachineSafety
  import opened MachineIdentity
  import opened MachineRuns
  import opened MachineSolo
  import VmNames
  import History

  /** As `Closed`, whatever the cleanup flags. */
  ghost predicate ClosedAs(k: Slot, w: AllocationState, l: Slot) {
    Closed(k.(failed := l.failed), w, l)
  }

  /** The second half of teardown: one cleanup succeeds, then the terminal state is written. */
  lemma CleanupReaches(k: Slot, w: AllocationState, now: nat) returns (l: Slot)
    requires k.driver.Some? &&
        k.driver.value == Driver(k.driver.value.kind, Refreshing(w), Idle, k.driver.value.fallback)
    requires k.entry.Some? && k.entry.value.allocation.state.Cleaning? && IsTerminal(w)
    ensures Reaches(k, false, l) && ClosedAs(k, w, l)
  {
    l := AttemptSucceeds(InPhase(k, Attempting(w, k.entry.value.allocation, false, 3)), w, now);
    RefreshedReaches(k, w, now, l);
  }

  lemma AttemptSucceeds(k: Slot, w: AllocationState, now: nat) returns (l: Slot)
    requires k.driver.Some? && k.entry.Some? && k.entry.value.allocation.state.Cleaning? && IsTerminal(w)
    requires k.driver.value == Driver(k.driver.value.kind, Attempting(w, k.entry.value.allocation, false, 3), Idle,
        k.driver.value.fallback)
    ensures Reaches(k, false, l) && ClosedAs(k, w, l)
  {
    var cleaned := InPhase(k, CheckingAgain(w)).(cleaned := true);
    l := ClosingReaches(cleaned, false, w, now);
    assert Driven(k, CleanupDone(true), false) == cleaned;
    ReachesBy(k, false, CleanupDone(true), l);
  }

  /** With a working store and one successful cleanup, a worker that returns from any unfinished
      state drives its allocation to Completed, or Cancelled if its token was signalled, and store,
      entry and channel agree on it. */
  lemma TeardownReaches(k: Slot, now: nat) returns (l: Slot)
    requires Live(k) && k.driver.Some? && k.driver.value == Driver(Worker, Working, Idle, k.driver.value.fallback)
    ensures Reaches(k, false, l) && ClosedAs(k, if k.cancelled then Cancelled else Completed, l)
  {
    var w := if k.cancelled then Cancelled else Completed;
    l := CheckingReaches(InPhase(k, Checking(w)), w, now);
    ReachesPhase(InPhase(k, Deciding(true)), false, Proceed(now), Checking(w), l);
    ReachesPhase(k, false, Exit(true), Deciding(true), l);
  }

  lemma CheckingReaches(k: Slot, w: AllocationState, now: nat) returns (l: Slot)
    requires Live(k) && k.driver.Some? &&
        k.driver.value == Driver(k.driver.value.kind, Checking(w), Idle, k.driver.value.fallback)
    requires IsTerminal(w)
    ensures Reaches(k, false, l) && ClosedAs(k, w, l)
  {
    if k.entry.value.allocation.state.Cleaning? {
      l := CleanupReaches(InPhase(k, Refreshing(w)), w, now);
      ReachesPhase(k, false, Proceed(now), Refreshing(w), l);
    } else {
      l := EnteringReaches(InPhase(k, Entering(w)), w, now);
      ReachesPhase(k, false, Proceed(now), Entering(w), l);
    }
  }

  lemma EnteringReaches(k: Slot, w: AllocationState, now: nat) returns (l: Slot)
    requires Live(k) && k.driver.Some? &&
        k.driver.value == Driver(k.driver.value.kind, Entering(w), Idle, k.driver.value.fallback)
    requires IsTerminal(w) && !k.entry.value.allocation.state.Cleaning?
    ensures Reaches(k, false, l) && ClosedAs(k, w, l)
  {
    var a := k.entry.value.allocation;
    LifecycleIsMonotone(a.state, Cleaning);
    l := CleanupReaches(Written(k, a.(state := Cleaning, updatedAt := now)), w, now);
    UpdateReaches(k, false, now, l);
  }

  /** An operator's cancel of unfinished work can be carried through: by the worker, once it returns,
      and from here when nobody owns the allocation. */
  lemma CancelReaches(k: Slot, now: nat) returns (l: Slot)
    requires Live(k)
    requires if k.entry.value.supervised || k.entry.value.terminalizing
             then k.driver.Some? && k.driver.value == Driver(Worker, Working, Idle, k.driver.value.fallback)
             else k.driver.None?
    ensures Reaches(CancelSlot(k), false, l) && ClosedAs(CancelSlot(k), Cancelled, l)
  {
    var c := CancelSlot(k);
    if k.driver.Some? {
      l := TeardownReaches(c, now);
    } else {
      l := CheckingReaches(c, Cancelled, now);
    }
  }

  // ---------------------------------------------------------------- the lost uniqueness

  /** The first request is admitted, and something beside its worker reads the record. */
  function Opening(r: Request): seq<Step> {
    OneRequest(0, r) + [Spawn(0, 7, SetVmCreated, 0)]
  }

  /** A second request of the attempt is admitted, then the stale update saves and publishes. */
  function SecondRequest(r: Request): seq<Step> {
    OneRequest(1, r) + [Extra(0, 7, true)] + [Extra(0, 7, true)]
  }

  /** One update issued beside the owner is enough to lose uniqueness: it reads while the work
      runs, the owner finishes, a second request of the attempt is admitted, and then the stale
      value is saved and published. */
  lemma OverlapRevivesFinishedWork(config: Config, limit: nat, r: Request) returns (steps: seq<Step>)
    requires Authorized(config, r) && VmNames.VmName(config.prefix, r).Some?
    requires 2 <= limit
    ensures !Unique(Run(Start(config, limit), steps).slots)
  {
    var a := NewAllocation(0, r, VmNames.VmText(config.prefix, r), 0);
    var v := a.(vmCreated := true, updatedAt := 0);
    var s0 := Start(config, limit);
    var opening := Opening(r);
    var s1 := Opened(config, limit, r);
    var k := s1.slots[0];
    var l := TeardownReaches(k, 0);
    var events :| NeverLeaks(k, false, events) && DrivenBy(k, false, events) == l;
    RunDrives(s1, 0, events);
    var s2 := Run(s1, Drives(0, events));
    steps := opening + Drives(0, events) + SecondRequest(r);
    RunConcat(s0, opening, Drives(0, events));
    RunConcat(s0, opening + Drives(0, events), SecondRequest(r));
    Revived(s2, config, r, v);
  }

  lemma Opened(config: Config, limit: nat, r: Request) returns (s: Sys)
    requires Authorized(config, r) && VmNames.VmName(config.prefix, r).Some?
    ensures s == Run(Start(config, limit), Opening(r))
    ensures s == Sys(config, limit, map[], s.slots, [], NotStarted) && s.slots.Keys == {0}
    ensures var a := NewAllocation(0, r, VmNames.VmText(config.prefix, r), 0);
            var u := Loaded(a.(vmCreated := true, updatedAt := 0));
            s.slots[0] == FreshSlot(a, config.prefix).(extras := map[7 := u])
  {
    OneCreated(config, limit, r);
    s := SpawnStep(OneAllocation(config, limit, r), 0, 7, SetVmCreated, 0);
    RunConcat(Start(config, limit), OneRequest(0, r), [Spawn(0, 7, SetVmCreated, 0)]);
    RunOne(OneAllocation(config, limit, r), Spawn(0, 7, SetVmCreated, 0));
  }

  lemma Revived(s: Sys, config: Config, r: Request, v: Allocation)
    requires s.slots.Keys == {0} && s.config == config && s.creates == map[] && s.shutdown.NotStarted? && 2 <= s.limit
    requires Authorized(config, r) && VmNames.VmName(config.prefix, r).Some?
    requires s.slots[0].entry.Some? && !Live(s.slots[0]) && s.slots[0].extras == map[7 := Loaded(v)]
    requires v.request == r && !Terminal(v)
    ensures !Unique(Run(s, SecondRequest(r)).slots)
  {
    var t := Run(s, OneRequest(1, r));
    SecondAdmitted(s, r);
    StalePublished(t, v);
    TwoExtras(s, OneRequest(1, r));
  }

  lemma SecondAdmitted(s: Sys, r: Request)
    requires s.slots.Keys == {0} && s.creates == map[] && s.shutdown.NotStarted? && 2 <= s.limit
    requires Authorized(s.config, r) && VmNames.VmName(s.config.prefix, r).Some? && !Live(s.slots[0])
    ensures var t := Run(s, OneRequest(1, r));
            && t.slots.Keys == {0, 1} && t.slots[0] == s.slots[0]
            && Live(t.slots[1]) && t.slots[1].entry.value.allocation.request == r
  {
    KeepsFinished(s, r);
  }

  lemma TwoExtras(s: Sys, before: seq<Step>)
    ensures var t := Run(s, before);
            Run(s, before + [Extra(0, 7, true)] + [Extra(0, 7, true)]) ==
            BesideStep(BesideStep(t, 0, 7, true), 0, 7, true)
  {
    var t := Run(s, before);
    RunConcat(s, before, [Extra(0, 7, true)]);
    RunOne(t, Extra(0, 7, true));
    RunConcat(s, before + [Extra(0, 7, true)], [Extra(0, 7, true)]);
    RunOne(BesideStep(t, 0, 7, true), Extra(0, 7, true));
  }

  /** Below the history limit the finished predecessor stays resident. */
  lemma KeepsFinished(s: Sys, r: Request)
    requires s.slots.Keys == {0} && s.creates == map[] && s.shutdown.NotStarted? && 2 <= s.limit
    requires Authorized(s.config, r) && VmNames.VmName(s.config.prefix, r).Some? && !Live(s.slots[0])
    ensures Run(s, OneRequest(1, r)).slots == s.slots[1 := NewSlot(1, r, s.config.prefix, 0)]
  {
    var t := Begin(s, 1, r);
    assert t.creates - {1} == s.creates && t.(creates := s.creates) == s;
    assert |s.slots.Keys| == 1;
    KeptBelowLimit(s, Pending(r, s.config), 1);
    RunConcat(s, [CreateBegin(1, r)], [CreateCommit(1, 1, true, true, 0)]);
    RunOne(s, CreateBegin(1, r));
    RunOne(t, CreateCommit(1, 1, true, true, 0));
  }

  lemma StalePublished(s: Sys, v: Allocation)
    requires s.slots.Keys == {0, 1} && s.slots[0].entry.Some? && s.slots[0].extras == map[7 := Loaded(v)]
    requires Live(s.slots[1]) && SameAttempt(v.request, s.slots[1].entry.value.allocation.request) && !Terminal(v)
    ensures !Unique(BesideStep(BesideStep(s, 0, 7, true), 0, 7, true).slots)
  {
    var t := BesideStep(s, 0, 7, true);
    assert t.slots[0].extras[7] == Saved(v);
    var u := BesideStep(t, 0, 7, true);
    assert u.slots[0].entry.value.allocation == v;
    assert Rivals(u.slots[0], u.slots[1]);
  }

  /** While the history is under its limit, `create` prunes nothing. */
  lemma KeptBelowLimit(s: Sys, p: Pending, id: Id)
    requires s.shutdown.NotStarted? && id !in s.slots && !HasPredecessor(s.slots, p.request) && |s.slots| < s.limit
    requires VmNames.VmName(p.config.prefix, p.request).Some?
    ensures Created(s, p, id, true, true, 0) ==
            s.(slots := s.slots[id := NewSlot(id, p.request, p.config.prefix, 0)])
  {
    var slots := s.slots[id := NewSlot(id, p.request, p.config.prefix, 0)];
    assert slots.Keys == s.slots.Keys + {id};
    NothingTrimmed(slots, s.limit);
  }

  lemma NothingTrimmed(slots: map<Id, Slot>, limit: nat)
    requires |slots| <= limit
    ensures Trimmed(slots, limit) == slots
  {
    var m := Entries(slots);
    History.SubsetSize(m.Keys, slots.Keys);
    var kept := History.Kept(m, m.Keys, limit);
    assert kept == m.Keys;
    forall i | i in slots ensures Trimmed(slots, limit)[i] == slots[i] {
      if slots[i].entry.None? {
        assert slots[i].(entry := None) == slots[i];
      }
    }
  }
}
