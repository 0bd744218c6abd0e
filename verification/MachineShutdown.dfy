/** Shutdown: admission closes for good, the snapshot covers all supervised work, and the report
    misses nothing it promises. crates/flanforge-manager/src/shutdown.rs. */
module MachineShutdown {
  import opened Base
  import opened Allocations
  import opened Machine
  import opened MachineSafety
  import opened MachineIdentity
  import opened MachineRuns
  import History

  // ---------------------------------------------------------------- admission closes

  /** Once the locked section has run, no step of any run inserts an entry again. */
  lemma {:induction false} ClosedForGood(s: Sys, steps: seq<Step>)
    requires !s.shutdown.NotStarted?
    ensures !Run(s, steps).shutdown.NotStarted?
    ensures Run(s, steps).slots.Keys == s.slots.Keys
  {
    if steps != [] {
      var t, last := Run(s, steps[..|steps| - 1]), steps[|steps| - 1];
      ClosedForGood(s, steps[..|steps| - 1]);
      NextKeys(t, last);
      if last.CreateCommit? {
        CommitKeys(t, last.tid, last.id, last.admitted, last.saveOk, last.now);
      }
      StaysClosed(t, last);
    }
  }

  lemma StaysClosed(s: Sys, step: Step)
    requires !s.shutdown.NotStarted?
    ensures !Next(s, step).shutdown.NotStarted?
    ensures Next(s, step).shutdown.awaited == s.shutdown.awaited
  {
  }

  // ---------------------------------------------------------------- leak lists

  ghost predicate DistinctLeaks(leaks: seq<Leak>) {
    forall i, j :: 0 <= i < j < |leaks| ==> leaks[i].id != leaks[j].id
  }

  lemma WithLeakKeeps(leaks: seq<Leak>, a: Allocation, reason: LeakReason)
    requires DistinctLeaks(leaks)
    ensures DistinctLeaks(WithLeak(leaks, a, reason)) && HasLeak(WithLeak(leaks, a, reason), a.id)
    ensures forall id :: HasLeak(leaks, id) ==> HasLeak(WithLeak(leaks, a, reason), id)
  {
    var more := leaks + [LeakOf(a, reason)];
    assert more[|leaks|].id == a.id;
    forall id | HasLeak(leaks, id) ensures HasLeak(more, id) {
      var i :| 0 <= i < |leaks| && leaks[i].id == id;
      assert more[i].id == id;
    }
  }

  /** `collect_leaks` keeps what was recorded, lists no id twice, and adds every awaited
      allocation that is still unfinished: an id is in the report exactly when it was recorded
      before the first lock or is awaited and unfinished under the second. */
  lemma {:induction false} CollectedKeeps(leaks: seq<Leak>, awaited: seq<Id>, entries: map<Id, Allocation>)
    requires DistinctLeaks(leaks) && History.Keyed(entries)
    ensures var all := Collected(leaks, awaited, entries);
            && DistinctLeaks(all)
            && leaks <= all
            && (forall id :: HasLeak(all, id) <==> HasLeak(leaks, id) || (id in awaited && Unfinished(entries, id)))
  {
    if awaited != [] {
      var init, last := awaited[..|awaited| - 1], awaited[|awaited| - 1];
      CollectedKeeps(leaks, init, entries);
      var so, all := Collected(leaks, init, entries), Collected(leaks, awaited, entries);
      assert awaited == init + [last];
      PrefixLeaks(so, all);
      if all != so {
        assert all[|so|].id == last;
        forall x | HasLeak(all, x) ensures HasLeak(so, x) || x == last {
          var i :| 0 <= i < |all| && all[i].id == x;
          assert i < |so| ==> so[i].id == x;
        }
      }
    }
  }

  lemma PrefixLeaks(a: seq<Leak>, b: seq<Leak>)
    requires a <= b
    ensures forall id :: HasLeak(a, id) ==> HasLeak(b, id)
  {
    forall id | HasLeak(a, id) ensures HasLeak(b, id) {
      var i :| 0 <= i < |a| && a[i].id == id;
      assert b[i].id == id;
    }
  }

  // ---------------------------------------------------------------- the invariant

  /** The leaks the shutdown has taken so far. */
  function Listed(s: Sys): seq<Leak> {
    if s.shutdown.Collecting? then s.shutdown.taken else if s.shutdown.Reported? then s.shutdown.report else []
  }

  predicate IsLeaking(k: Slot) {
    k.driver.Some? && k.driver.value.phase.Leaking?
  }

  /** An operator's cancel was dropped: the entry is unfinished and nobody will take it up again. */
  predicate IsStuck(k: Slot) {
    k.driver.None? && Live(k) && k.entry.value.terminalizing
  }

  /** Every bounded cleanup failure is recorded, listed, about to be recorded, or of work left behind. */
  ghost predicate Tracked(slots: map<Id, Slot>, leaked: seq<Leak>, listed: seq<Leak>) {
    forall id :: id in slots && slots[id].failed ==> HasLeak(leaked, id) || HasLeak(listed, id) || Unrecorded(slots[id])
  }

  predicate Unrecorded(k: Slot) {
    IsLeaking(k) || IsStuck(k)
  }

  /** Supervised unfinished work is in the snapshot. */
  ghost predicate Covered(slots: map<Id, Slot>, awaited: seq<Id>) {
    forall id :: id in slots && Live(slots[id]) && slots[id].entry.value.supervised ==> id in awaited
  }

  ghost predicate Seen(slots: map<Id, Slot>, ids: seq<Id>) {
    forall i :: 0 <= i < |ids| ==> ids[i] in slots && Terminal(slots[ids[i]].channel)
  }

  ghost predicate Waited(s: Sys) {
    match s.shutdown
    case NotStarted => true
    case Waiting(awaited, next) => next <= |awaited| && Seen(s.slots, awaited[..next])
    case Taking(awaited, complete) => complete ==> Seen(s.slots, awaited)
    case Collecting(awaited, complete, _) => complete ==> Seen(s.slots, awaited)
    case Reported(awaited, complete, _) => complete ==> Seen(s.slots, awaited)
  }

  /** A complete wait leaves no failure of the snapshot outside the list. */
  ghost predicate FailuresListed(s: Sys) {
    (s.shutdown.Collecting? || s.shutdown.Reported?) && s.shutdown.complete ==>
      forall id :: id in s.shutdown.awaited && id in s.slots && s.slots[id].failed ==> HasLeak(Listed(s), id)
  }

  ghost predicate UnfinishedListed(s: Sys) {
    s.shutdown.Reported? ==>
      forall id :: id in s.shutdown.awaited && id in s.slots && Live(s.slots[id]) ==> HasLeak(s.shutdown.report, id)
  }

  ghost predicate ShutdownOk(s: Sys) {
    && DistinctLeaks(s.leaked) && DistinctLeaks(Listed(s))
    && Tracked(s.slots, s.leaked, Listed(s))
    && (!s.shutdown.NotStarted? ==> Covered(s.slots, s.shutdown.awaited))
    && Waited(s)
    && FailuresListed(s)
    && UnfinishedListed(s)
  }

  // ---------------------------------------------------------------- slot facts

  /** A finished allocation never fails a cleanup any more. */
  lemma FinishedNeverFails(id: Id, k: Slot, e: Event, bounded: bool)
    requires Owned(id, k) && k.driver.Some? && Terminal(k.channel)
    ensures Driven(k, e, bounded).failed == k.failed
  {
  }

  lemma FailureTracked(id: Id, k: Slot, e: Event, bounded: bool, leaked: seq<Leak>)
    requires Owned(id, k) && k.driver.Some? && DistinctLeaks(leaked)
    ensures var k' := Driven(k, e, bounded);
            k'.failed && (k.failed ==> IsLeaking(k)) ==>
                HasLeak(LeakedBy(leaked, k.driver.value, e), id) || Unrecorded(k')
  {
    if IsLeaking(k) {
      WithLeakKeeps(leaked, k.driver.value.phase.current, CleanupFailed);
      LeakingMoves(id, k, e, bounded);
    } else if !k.failed {
      FailsIntoLeaking(id, k, e, bounded);
    }
  }

  /** An owner about to record its failure records it, stays there, or is dropped for good. */
  lemma LeakingMoves(id: Id, k: Slot, e: Event, bounded: bool)
    requires Owned(id, k) && IsLeaking(k)
    ensures k.driver.value.update.Idle? && k.driver.value.phase.current.id == id
    ensures !e.Proceed? ==> Unrecorded(Driven(k, e, bounded))
  {
  }

  lemma FailsIntoLeaking(id: Id, k: Slot, e: Event, bounded: bool)
    requires Owned(id, k) && k.driver.Some? && !IsLeaking(k) && !k.failed
    ensures Driven(k, e, bounded).failed ==> IsLeaking(Driven(k, e, bounded))
  {
    if !FailsBy(k, e) {
      OnlyAttemptsFail(k, e, bounded);
    }
  }

  /** The step is a failed cleanup attempt. */
  predicate FailsBy(k: Slot, e: Event) {
    k.driver.Some? && k.driver.value.update.Idle? && k.driver.value.phase.Attempting? && e.CleanupDone? && !e.ok
  }

  lemma OnlyAttemptsFail(k: Slot, e: Event, bounded: bool)
    requires k.driver.Some? && !FailsBy(k, e)
    ensures Driven(k, e, bounded).failed == k.failed
  {
    var d := k.driver.value;
    if d.update.Idle? {
      ResumingFailsNothing(k, d, e, bounded);
    }
  }

  lemma ResumingFailsNothing(k: Slot, d: Driver, e: Event, bounded: bool)
    requires !(d.phase.Attempting? && e.CleanupDone? && !e.ok)
    ensures Resumed(k, d, e, bounded).failed == k.failed
  {
  }

  // ---------------------------------------------------------------- preservation

  lemma SeenOnward(slots: map<Id, Slot>, slots': map<Id, Slot>, ids: seq<Id>)
    requires AllOnward(slots, slots') && Seen(slots, ids)
    ensures Seen(slots', ids)
  {
    forall i | 0 <= i < |ids| ensures ids[i] in slots' && Terminal(slots'[ids[i]].channel) {
      assert Onward(slots[ids[i]], slots'[ids[i]]);
    }
  }

  lemma CoveredOnward(slots: map<Id, Slot>, slots': map<Id, Slot>, awaited: seq<Id>)
    requires AllOnward(slots, slots') && slots'.Keys == slots.Keys && Covered(slots, awaited)
    ensures Covered(slots', awaited)
  {
    forall id | id in slots' && Live(slots'[id]) && slots'[id].entry.value.supervised ensures id in awaited {
      LiveBefore(slots[id], slots'[id]);
    }
  }

  /** A step that leaves the shutdown alone keeps its snapshot, its observations and its report. */
  lemma SlotsMoved(s: Sys, s': Sys)
    requires ShutdownOk(s) && s'.shutdown == s.shutdown && AllOnward(s.slots, s'.slots)
    requires s'.slots.Keys == s.slots.Keys || s.shutdown.NotStarted?
    requires forall id :: id in s.slots && Terminal(s.slots[id].channel) ==> s'.slots[id].failed == s.slots[id].failed
    ensures !s'.shutdown.NotStarted? ==> Covered(s'.slots, s'.shutdown.awaited)
    ensures Waited(s') && FailuresListed(s') && UnfinishedListed(s')
  {
    match s.shutdown
    case NotStarted =>
    case Waiting(awaited, next) =>
      CoveredOnward(s.slots, s'.slots, awaited);
      SeenOnward(s.slots, s'.slots, awaited[..next]);
    case Taking(awaited, complete) =>
      CoveredOnward(s.slots, s'.slots, awaited);
      if complete { SeenOnward(s.slots, s'.slots, awaited); }
    case Collecting(awaited, complete, taken) =>
      CoveredOnward(s.slots, s'.slots, awaited);
      if complete { SeenOnward(s.slots, s'.slots, awaited); }
    case Reported(awaited, complete, report) =>
      CoveredOnward(s.slots, s'.slots, awaited);
      if complete { SeenOnward(s.slots, s'.slots, awaited); }
      forall id | id in awaited && id in s'.slots && Live(s'.slots[id]) ensures HasLeak(report, id) {
        LiveBefore(s.slots[id], s'.slots[id]);
      }
  }

  lemma DriveTracked(s: Sys, id: Id, e: Event)
    requires AllOwned(s.slots) && ShutdownOk(s) && id in s.slots && s.slots[id].driver.Some?
    ensures var s' := DriveStep(s, id, e); Tracked(s'.slots, s'.leaked, Listed(s))
  {
    var k, bounded := s.slots[id], !s.shutdown.NotStarted?;
    assert Owned(id, k);
    FailureTracked(id, k, e, bounded, s.leaked);
    LeakedByKeeps(id, k, e, s.leaked);
  }

  lemma DriveMoved(s: Sys, id: Id, e: Event)
    requires AllOwned(s.slots) && id in s.slots && s.slots[id].driver.Some?
    ensures var s' := DriveStep(s, id, e);
            && s'.shutdown == s.shutdown && s'.slots.Keys == s.slots.Keys && AllOnward(s.slots, s'.slots)
            && forall i :: i in s.slots && Terminal(s.slots[i].channel) ==> s'.slots[i].failed == s.slots[i].failed
  {
    var k := s.slots[id];
    DriveOwned(s, id, e);
    assert Owned(id, k);
    if Terminal(k.channel) {
      FinishedNeverFails(id, k, e, !s.shutdown.NotStarted?);
    }
  }

  lemma DriveShutdown(s: Sys, id: Id, e: Event)
    requires AllOwned(s.slots) && ShutdownOk(s)
    ensures ShutdownOk(DriveStep(s, id, e))
  {
    if id in s.slots && s.slots[id].driver.Some? {
      var s' := DriveStep(s, id, e);
      DriveMoved(s, id, e);
      SlotsMoved(s, s');
      DriveTracked(s, id, e);
      LeakedByKeeps(id, s.slots[id], e, s.leaked);
      assert Listed(s') == Listed(s);
    }
  }

  lemma LeakedByKeeps(id: Id, k: Slot, e: Event, leaked: seq<Leak>)
    requires k.driver.Some? && DistinctLeaks(leaked)
    ensures DistinctLeaks(LeakedBy(leaked, k.driver.value, e))
    ensures forall i :: HasLeak(leaked, i) ==> HasLeak(LeakedBy(leaked, k.driver.value, e), i)
  {
    if IsLeaking(k) {
      WithLeakKeeps(leaked, k.driver.value.phase.current, CleanupFailed);
    }
  }

  lemma CancelShutdown(s: Sys, id: Id)
    requires AllOwned(s.slots) && ShutdownOk(s)
    ensures ShutdownOk(CancelStep(s, id))
  {
    if id in s.slots {
      var s' := CancelStep(s, id);
      CancelStepOwned(s, id);
      SlotsMoved(s, s');
      CancelTracked(s, id);
      assert Listed(s') == Listed(s);
    }
  }

  lemma CancelTracked(s: Sys, id: Id)
    requires AllOwned(s.slots) && ShutdownOk(s) && id in s.slots
    ensures Tracked(CancelStep(s, id).slots, s.leaked, Listed(s))
  {
    var k := s.slots[id];
    assert Owned(id, k);
    assert Unrecorded(k) ==> Unrecorded(CancelSlot(k));
  }

  lemma CommitShutdown(s: Sys, tid: nat, id: Id, admitted: bool, saveOk: bool, now: nat)
    requires AllOwned(s.slots) && ShutdownOk(s)
    ensures ShutdownOk(Commit(s, tid, id, admitted, saveOk, now))
  {
    var s' := Commit(s, tid, id, admitted, saveOk, now);
    CommitOwned(s, tid, id, admitted, saveOk, now);
    CommitKeys(s, tid, id, admitted, saveOk, now);
    CommitFlags(s, tid, id, admitted, saveOk, now);
    SlotsMoved(s, s');
    CommitTracked(s, tid, id, admitted, saveOk, now);
    assert Listed(s') == Listed(s);
  }

  lemma CommitTracked(s: Sys, tid: nat, id: Id, admitted: bool, saveOk: bool, now: nat)
    requires ShutdownOk(s)
    ensures Tracked(Commit(s, tid, id, admitted, saveOk, now).slots, s.leaked, Listed(s))
  {
    CommitKeys(s, tid, id, admitted, saveOk, now);
  }

  lemma CommitFlags(s: Sys, tid: nat, id: Id, admitted: bool, saveOk: bool, now: nat)
    ensures var s' := Commit(s, tid, id, admitted, saveOk, now);
            s'.shutdown == s.shutdown && s'.leaked == s.leaked && s.slots.Keys <= s'.slots.Keys &&
            forall i :: i in s.slots ==>
                s'.slots[i].failed == s.slots[i].failed && s'.slots[i].driver == s.slots[i].driver
  {
    if tid in s.creates && Commit(s, tid, id, admitted, saveOk, now).slots != s.slots {
      CommitKeys(s, tid, id, admitted, saveOk, now);
    }
  }

  lemma CloseShutdown(s: Sys, order: seq<Id>)
    requires AllOwned(s.slots) && ShutdownOk(s)
    ensures ShutdownOk(Close(s, order))
  {
    if s.shutdown.NotStarted? && Enumerates(order, s.slots) {
      var s' := Close(s, order);
      SignalledOwned(s.slots, order);
      forall id | id in s'.slots && Live(s'.slots[id]) && s'.slots[id].entry.value.supervised ensures id in order {
        assert IsAwaited(s.slots[id]);
      }
      assert Tracked(s'.slots, s'.leaked, Listed(s'));
    }
  }

  lemma ObserveShutdown(s: Sys)
    requires ShutdownOk(s)
    ensures ShutdownOk(Observe(s)) && ShutdownOk(WaitEnd(s))
  {
    if s.shutdown.Waiting? {
      var awaited, next := s.shutdown.awaited, s.shutdown.next;
      if next < |awaited| {
        assert awaited[..next + 1] == awaited[..next] + [awaited[next]];
      } else {
        assert awaited[..next] == awaited;
      }
    }
  }

  lemma TakeShutdown(s: Sys)
    requires AllOwned(s.slots) && ShutdownOk(s)
    ensures ShutdownOk(Take(s))
  {
    if s.shutdown.Taking? && s.shutdown.complete {
      forall id | id in s.shutdown.awaited && id in s.slots && s.slots[id].failed ensures HasLeak(s.leaked, id) {
        var i :| 0 <= i < |s.shutdown.awaited| && s.shutdown.awaited[i] == id;
        assert Terminal(s.slots[id].channel) && Owned(id, s.slots[id]);
      }
    }
  }

  lemma CollectShutdown(s: Sys)
    requires AllOwned(s.slots) && ShutdownOk(s)
    ensures ShutdownOk(Collect(s))
  {
    if s.shutdown.Collecting? {
      var entries := Entries(s.slots);
      forall id | id in entries ensures entries[id].id == id {
        assert Owned(id, s.slots[id]);
      }
      CollectedKeeps(s.shutdown.taken, s.shutdown.awaited, entries);
      PrefixLeaks(s.shutdown.taken, Collected(s.shutdown.taken, s.shutdown.awaited, entries));
    }
  }

  lemma SameShutdown(s: Sys, s': Sys)
    requires ShutdownOk(s) && s'.slots == s.slots && s'.leaked == s.leaked && s'.shutdown == s.shutdown
    ensures ShutdownOk(s')
  {
  }

  lemma LandFlags(s: Sys, id: Id, n: nat)
    ensures var s' := LandStep(s, id, n);
            s'.shutdown == s.shutdown && s'.leaked == s.leaked && s'.slots.Keys == s.slots.Keys &&
            forall i :: i in s.slots ==>
                s'.slots[i].failed == s.slots[i].failed && s'.slots[i].driver == s.slots[i].driver
  {
  }

  lemma LandTracked(s: Sys, id: Id, n: nat)
    requires ShutdownOk(s)
    ensures Tracked(LandStep(s, id, n).slots, s.leaked, Listed(s))
  {
    LandFlags(s, id, n);
  }

  lemma LandShutdown(s: Sys, id: Id, n: nat)
    requires AllOwned(s.slots) && ShutdownOk(s)
    ensures ShutdownOk(LandStep(s, id, n))
  {
    var s' := LandStep(s, id, n);
    LandOwned(s, id, n);
    LandFlags(s, id, n);
    SlotsMoved(s, s');
    LandTracked(s, id, n);
    assert Listed(s') == Listed(s);
  }

  lemma BesideShutdown(s: Sys, id: Id, tid: nat, ok: bool)
    requires AllOwned(s.slots)
    ensures BesideStep(s, id, tid, ok) == s
  {
    assert id in s.slots ==> Owned(id, s.slots[id]);
  }

  predicate OfShutdown(step: Step) {
    step.ShutdownStart? || step.ShutdownObserve? || step.ShutdownWaitEnd? || step.ShutdownTake? || step.ShutdownCollect?
  }

  lemma StageShutdown(s: Sys, step: Step)
    requires AllOwned(s.slots) && ShutdownOk(s) && OfShutdown(step)
    ensures ShutdownOk(Next(s, step))
  {
    match step
    case ShutdownStart(order) => CloseShutdown(s, order);
    case ShutdownObserve => ObserveShutdown(s);
    case ShutdownWaitEnd => ObserveShutdown(s);
    case ShutdownTake => TakeShutdown(s);
    case ShutdownCollect => CollectShutdown(s);
  }

  lemma NextShutdown(s: Sys, step: Step)
    requires AllOwned(s.slots) && ShutdownOk(s) && !step.Spawn?
    ensures ShutdownOk(Next(s, step))
  {
    if OfShutdown(step) {
      StageShutdown(s, step);
    } else {
      match step
      case CreateCommit(tid, id, admitted, saveOk, now) => CommitShutdown(s, tid, id, admitted, saveOk, now);
      case Cancel(id) => CancelShutdown(s, id);
      case Drive(id, e) => DriveShutdown(s, id, e);
      case Extra(id, tid, ok) => BesideShutdown(s, id, tid, ok);
      case Land(id, n) => LandShutdown(s, id, n);
      case Reload(config) => SameShutdown(s, s.(config := config));
      case CreateBegin(tid, r) => SameShutdown(s, Begin(s, tid, r));
    }
  }

  lemma {:induction false} RunShutdown(config: Config, limit: nat, steps: seq<Step>)
    requires Serial(steps)
    ensures ShutdownOk(Run(Start(config, limit), steps))
  {
    if steps != [] {
      RunShutdown(config, limit, steps[..|steps| - 1]);
      RunOwned(config, limit, steps[..|steps| - 1]);
      NextShutdown(Run(Start(config, limit), steps[..|steps| - 1]), steps[|steps| - 1]);
    }
  }

  // ---------------------------------------------------------------- what shutdown promises

  /** In every state of every serial run after the locked section, whatever is unfinished and
      supervised is in the snapshot the shutdown waits for. */
  lemma SnapshotCoversSupervised(config: Config, limit: nat, steps: seq<Step>, id: Id)
    requires Serial(steps)
    requires var s := Run(Start(config, limit), steps);
             !s.shutdown.NotStarted? && id in s.slots && Live(s.slots[id]) && s.slots[id].entry.value.supervised
    ensures id in Run(Start(config, limit), steps).shutdown.awaited
  {
    RunShutdown(config, limit, steps);
  }

  /** The report of every serial run lists no allocation twice and every awaited one that is still
      unfinished; and when the wait saw every awaited allocation terminal, it also lists every
      awaited one whose bounded cleanup failed. */
  lemma ReportIsComplete(config: Config, limit: nat, steps: seq<Step>)
    requires Serial(steps) && Run(Start(config, limit), steps).shutdown.Reported?
    ensures var s := Run(Start(config, limit), steps);
            && DistinctLeaks(s.shutdown.report)
            && (forall id :: id in s.shutdown.awaited && id in s.slots && Live(s.slots[id]) ==>
               HasLeak(s.shutdown.report, id))
            && (s.shutdown.complete ==>
                forall id :: id in s.shutdown.awaited && id in s.slots && s.slots[id].failed ==>
                    HasLeak(s.shutdown.report, id))
  {
    RunShutdown(config, limit, steps);
  }
}
