/** Exactly what the shutdown report lists, over every run. crates/flanforge-manager/src/shutdown.rs. */
module MachineReport {
  import opened Base
  import opened Allocations
  import opened Machine
  import opened MachineSafety
  import opened MachineIdentity
  import opened MachineShutdown

  /** The step records a failed cleanup of the allocation. */
  predicate Records(s: Sys, step: Step, id: Id) {
    && step.Drive? && step.event.Proceed? && step.id in s.slots && s.slots[step.id].driver.Some?
    && s.slots[step.id].driver.value.update.Idle? && s.slots[step.id].driver.value.phase.Leaking?
    && s.slots[step.id].driver.value.phase.current.id == id
  }

  /** The recorded leaks have not been taken yet. */
  predicate Untaken(s: Sys) {
    s.shutdown.NotStarted? || s.shutdown.Waiting? || s.shutdown.Taking?
  }

  lemma NextUntaken(s: Sys, step: Step)
    requires Untaken(Next(s, step))
    ensures Untaken(s) && !(step.ShutdownTake? && s.shutdown.Taking?)
  {
  }

  lemma NextLeaked(s: Sys, step: Step, id: Id)
    requires !(step.ShutdownTake? && s.shutdown.Taking?)
    ensures HasLeak(Next(s, step).leaked, id) <==> HasLeak(s.leaked, id) || Records(s, step, id)
  {
    if step.Drive? && step.id in s.slots && s.slots[step.id].driver.Some? {
      LeakedByExactly(s.leaked, s.slots[step.id].driver.value, step.event, id);
    }
  }

  lemma LeakedByExactly(leaked: seq<Leak>, d: Driver, e: Event, id: Id)
    ensures HasLeak(LeakedBy(leaked, d, e), id) <==>
            HasLeak(leaked, id) || (e.Proceed? && d.update.Idle? && d.phase.Leaking? && d.phase.current.id == id)
  {
    var more := LeakedBy(leaked, d, e);
    if more != leaked {
      assert more[|leaked|].id == d.phase.current.id;
      PrefixLeaks(leaked, more);
      if i :| 0 <= i < |more| && more[i].id == id {
        assert i < |leaked| ==> leaked[i].id == id;
      }
    }
  }

  ghost predicate RecordedBefore(s: Sys, steps: seq<Step>, n: int, id: Id) {
    exists m :: 0 <= m < n && m < |steps| && Records(Run(s, steps[..m]), steps[m], id)
  }

  /** In every run, until they are taken, the recorded leaks are those of the steps that recorded one. */
  lemma {:induction false} LeakedExactly(config: Config, limit: nat, steps: seq<Step>, id: Id)
    requires Untaken(Run(Start(config, limit), steps))
    ensures HasLeak(Run(Start(config, limit), steps).leaked, id) <==>
        RecordedBefore(Start(config, limit), steps, |steps|, id)
  {
    if steps != [] {
      var before, step := steps[..|steps| - 1], steps[|steps| - 1];
      NextUntaken(Run(Start(config, limit), before), step);
      LeakedExactly(config, limit, before, id);
      LeakedStep(Start(config, limit), before, step, id);
      assert steps == before + [step];
    }
  }

  lemma LeakedStep(s0: Sys, steps: seq<Step>, step: Step, id: Id)
    requires !(step.ShutdownTake? && Run(s0, steps).shutdown.Taking?)
    requires HasLeak(Run(s0, steps).leaked, id) <==> RecordedBefore(s0, steps, |steps|, id)
    ensures HasLeak(Next(Run(s0, steps), step).leaked, id) <==> RecordedBefore(s0, steps + [step], |steps| + 1, id)
  {
    NextLeaked(Run(s0, steps), step, id);
    OneMoreRecorded(s0, steps, step, id);
  }

  lemma OneMoreRecorded(s: Sys, steps: seq<Step>, step: Step, id: Id)
    ensures RecordedBefore(s, steps + [step], |steps| + 1, id) <==>
            RecordedBefore(s, steps, |steps|, id) || Records(Run(s, steps), step, id)
  {
    var more := steps + [step];
    assert more[..|steps|] == steps && more[|steps|] == step;
    if m :| 0 <= m < |more| && Records(Run(s, more[..m]), more[m], id) {
      assert m < |steps| ==> more[..m] == steps[..m] && more[m] == steps[m];
    }
    if m :| 0 <= m < |steps| && Records(Run(s, steps[..m]), steps[m], id) {
      assert more[..m] == steps[..m] && more[m] == steps[m];
    }
    if Records(Run(s, steps), step, id) {
      assert Records(Run(s, more[..|steps|]), more[|steps|], id);
    }
  }

  lemma {:induction false} StaysTaken(s: Sys, steps: seq<Step>)
    requires !Untaken(s)
    ensures !Untaken(Run(s, steps))
  {
    if steps != [] {
      StaysTaken(s, steps[..|steps| - 1]);
      if Untaken(Run(s, steps)) {
        NextUntaken(Run(s, steps[..|steps| - 1]), steps[|steps| - 1]);
      }
    }
  }

  /** After a take the list starts over: what it holds was recorded since. */
  lemma {:induction false} LeakedSinceTaken(s: Sys, steps: seq<Step>, id: Id)
    requires s.shutdown.Taking?
    ensures var t := Next(s, ShutdownTake);
            HasLeak(Run(t, steps).leaked, id) <==> RecordedBefore(t, steps, |steps|, id)
  {
    LeakedSince(Next(s, ShutdownTake), steps, id);
  }

  lemma {:induction false} LeakedSince(s: Sys, steps: seq<Step>, id: Id)
    requires !Untaken(s) && s.leaked == []
    ensures HasLeak(Run(s, steps).leaked, id) <==> RecordedBefore(s, steps, |steps|, id)
  {
    if steps != [] {
      var before, step := steps[..|steps| - 1], steps[|steps| - 1];
      LeakedSince(s, before, id);
      StaysTaken(s, before);
      LeakedStep(s, before, step, id);
      assert steps == before + [step];
    }
  }

  lemma PrefixRecorded(s: Sys, steps: seq<Step>, n: nat, id: Id)
    requires n <= |steps|
    ensures RecordedBefore(s, steps, n, id) <==> RecordedBefore(s, steps[..n], n, id)
  {
    forall m | 0 <= m < n ensures steps[..n][..m] == steps[..m] && steps[..n][m] == steps[m] {
    }
    if m :| 0 <= m < n && m < |steps| && Records(Run(s, steps[..m]), steps[m], id) {
      assert Records(Run(s, steps[..n][..m]), steps[..n][m], id);
    }
    if m :| 0 <= m < n && m < |steps[..n]| && Records(Run(s, steps[..n][..m]), steps[..n][m], id) {
      assert Records(Run(s, steps[..m]), steps[m], id);
    }
  }

  /** No leak is recorded twice, and none is taken twice. */
  ghost predicate DistinctAll(s: Sys) {
    DistinctLeaks(s.leaked) && (s.shutdown.Collecting? ==> DistinctLeaks(s.shutdown.taken))
  }

  lemma NextDistinct(s: Sys, step: Step)
    requires DistinctAll(s)
    ensures DistinctAll(Next(s, step))
  {
    if step.Drive? && step.id in s.slots && s.slots[step.id].driver.Some? {
      LeakedByKeeps(step.id, s.slots[step.id], step.event, s.leaked);
    }
  }

  lemma {:induction false} RunDistinct(config: Config, limit: nat, steps: seq<Step>)
    ensures DistinctAll(Run(Start(config, limit), steps))
  {
    if steps != [] {
      RunDistinct(config, limit, steps[..|steps| - 1]);
      NextDistinct(Run(Start(config, limit), steps[..|steps| - 1]), steps[|steps| - 1]);
    }
  }

  /** Step `n` is the effective take, or the effective collection. */
  ghost predicate TakesAt(s: Sys, steps: seq<Step>, n: int) {
    0 <= n < |steps| && steps[n].ShutdownTake? && Run(s, steps[..n]).shutdown.Taking?
  }

  ghost predicate CollectsAt(s: Sys, steps: seq<Step>, n: int) {
    0 <= n < |steps| && steps[n].ShutdownCollect? && Run(s, steps[..n]).shutdown.Collecting?
  }

  lemma {:induction false} FindTake(s: Sys, steps: seq<Step>) returns (n: nat)
    requires s.shutdown.NotStarted? && Run(s, steps).shutdown.Collecting?
    ensures TakesAt(s, steps, n) && Run(s, steps).shutdown == Take(Run(s, steps[..n])).shutdown
  {
    var before, step := steps[..|steps| - 1], steps[|steps| - 1];
    if Run(s, before).shutdown.Collecting? {
      n := FindTake(s, before);
      assert before[..n] == steps[..n] && before[n] == steps[n];
    } else {
      n := |steps| - 1;
    }
  }

  lemma {:induction false} FindCollect(s: Sys, steps: seq<Step>) returns (n: nat)
    requires s.shutdown.NotStarted? && Run(s, steps).shutdown.Reported?
    ensures CollectsAt(s, steps, n) && Run(s, steps).shutdown == Collect(Run(s, steps[..n])).shutdown
  {
    var before, step := steps[..|steps| - 1], steps[|steps| - 1];
    if Run(s, before).shutdown.Reported? {
      n := FindCollect(s, before);
      assert before[..n] == steps[..n] && before[n] == steps[n];
    } else {
      n := |steps| - 1;
    }
  }

  /** In every run with a report there is one take and one collection after it, and the report lists an
      allocation exactly when a failed cleanup of it was recorded before the take, or it was awaited
      and still unfinished at the collection. A bounded failure outside both is not reported. */
  lemma ReportExactly(config: Config, limit: nat, steps: seq<Step>) returns (taken: nat, collected: nat)
    requires Run(Start(config, limit), steps).shutdown.Reported?
    ensures TakesAt(Start(config, limit), steps, taken) && CollectsAt(Start(config, limit), steps, collected) &&
        taken < collected
    ensures var s, at := Run(Start(config, limit), steps), Run(Start(config, limit), steps[..collected]);
            forall id :: HasLeak(s.shutdown.report, id) <==>
              || RecordedBefore(Start(config, limit), steps, taken, id)
              || (id in s.shutdown.awaited && id in at.slots && Live(at.slots[id]))
  {
    var s0 := Start(config, limit);
    collected := FindCollect(s0, steps);
    var upto := steps[..collected];
    taken := FindTake(s0, upto);
    assert upto[..taken] == steps[..taken] && upto[taken] == steps[taken];
    var s, at, before := Run(s0, steps), Run(s0, upto), Run(s0, steps[..taken]);
    assert s.shutdown.report == Collected(before.leaked, at.shutdown.awaited, Entries(at.slots));
    ReportOf(config, limit, upto);
    forall id ensures HasLeak(s.shutdown.report, id) <==>
                RecordedBefore(s0, steps, taken, id) ||
                    (id in s.shutdown.awaited && id in at.slots && Live(at.slots[id]))
    {
      LeakedExactly(config, limit, steps[..taken], id);
      PrefixRecorded(s0, steps, taken, id);
      assert id in s.shutdown.awaited && Unfinished(Entries(at.slots), id) <==>
             id in s.shutdown.awaited && id in at.slots && Live(at.slots[id]);
    }
  }

  /** The list a collection would make now. */
  lemma ReportOf(config: Config, limit: nat, steps: seq<Step>)
    requires Run(Start(config, limit), steps).shutdown.Collecting?
    ensures var s := Run(Start(config, limit), steps);
            forall id :: HasLeak(Collected(s.shutdown.taken, s.shutdown.awaited, Entries(s.slots)), id) <==>
              HasLeak(s.shutdown.taken, id) || (id in s.shutdown.awaited && Unfinished(Entries(s.slots), id))
  {
    var s := Run(Start(config, limit), steps);
    RunDistinct(config, limit, steps);
    RunGenuine(config, limit, steps);
    forall id | id in Entries(s.slots) ensures Entries(s.slots)[id].id == id {
      assert Genuine(id, s.slots[id]);
    }
    CollectedKeeps(s.shutdown.taken, s.shutdown.awaited, Entries(s.slots));
  }

  // ---------------------------------------------------------------- what a listed leak says

  /** The leak shows a value of the allocation that was saved. */
  predicate Shows(l: Leak, k: Slot) {
    exists a :: a in k.saved &&
      l.id == a.id && l.state == a.state && l.repository == a.request.repository && l.vmName == a.vmName &&
      l.vmCreated == a.vmCreated && l.runnerId == a.runnerId && (l.reason.NotTerminal? ==> !Terminal(a))
  }

  ghost predicate AllShown(leaks: seq<Leak>, slots: map<Id, Slot>) {
    forall i :: 0 <= i < |leaks| ==> leaks[i].id in slots && Shows(leaks[i], slots[leaks[i].id])
  }

  predicate CurrentSaved(saved: set<Allocation>, p: Phase) {
    match p
    case Budgeting(_, c) => c in saved
    case Attempting(_, c, _, _) => c in saved
    case Leaking(c) => c in saved
    case _ => true
  }

  /** What was saved is of this allocation, and what an owner would record was saved. */
  predicate RecordsSaved(k: Slot) {
    && (forall a :: a in k.saved ==> IdentityOf(a) == IdentityOf(k.channel))
    && (k.driver.Some? ==> k.driver.value.fallback in k.saved && CurrentSaved(k.saved, k.driver.value.phase))
  }

  ghost predicate LeaksShown(s: Sys) {
    && AllRecordSaved(s.slots)
    && AllShown(s.leaked, s.slots) && AllShown(Listed(s), s.slots)
  }

  lemma MovedCurrent(k: Slot, d: Driver, e: Event, bounded: bool)
    requires Traced(k) && d.fallback in k.saved && CurrentSaved(k.saved, d.phase)
    ensures CurrentSaved(k.saved, Moved(k, d, e, bounded))
  {
  }

  lemma AfterCurrent(saved: set<Allocation>, d: Driver, ok: bool)
    requires CurrentSaved(saved, d.phase)
    ensures CurrentSaved(saved, After(d, ok).phase) && After(d, ok).fallback == d.fallback
  {
  }

  /** A step that moves only the owner. */
  lemma OwnerMovedSaved(k: Slot, k': Slot)
    requires RecordsSaved(k) && k'.saved == k.saved && k'.channel == k.channel
    requires k'.driver.Some? ==> k'.driver.value.fallback in k.saved && CurrentSaved(k.saved, k'.driver.value.phase)
    ensures RecordsSaved(k')
  {
  }

  lemma LoadSaved(k: Slot, d: Driver, c: Change, now: nat)
    requires k.driver == Some(d) && RecordsSaved(k)
    ensures RecordsSaved(Load(k, d, c, now)) && Load(k, d, c, now).saved == k.saved
  {
    AfterCurrent(k.saved, d, false);
    OwnerMovedSaved(k, Load(k, d, c, now));
  }

  lemma ResumedSaved(k: Slot, d: Driver, e: Event, bounded: bool)
    requires k.driver == Some(d) && d.update.Idle? && Traced(k) && RecordsSaved(k)
    ensures RecordsSaved(Resumed(k, d, e, bounded)) && Resumed(k, d, e, bounded).saved == k.saved
  {
    if d.phase.Working? && e.Report? && Reportable(e.change) {
      LoadSaved(k, d, e.change, e.at);
    } else if Writes(d.phase) && e.Proceed? {
      LoadSaved(k, d, ChangeFor(d.phase), e.now);
    } else if d.phase.Releasing? && e.Proceed? {
      OwnerMovedSaved(k, Released(k, d));
    } else {
      MovedCurrent(k, d, e, bounded);
      OwnerMovedSaved(k, Advanced(k, d, e, Moved(k, d, e, bounded)));
    }
  }

  lemma StoredSaved(k: Slot, d: Driver, v: Allocation, ok: bool)
    requires k.driver == Some(d) && RecordsSaved(k) && IdentityOf(v) == IdentityOf(k.channel)
    ensures RecordsSaved(SaveReturned(k, d, v, ok)) && k.saved <= SaveReturned(k, d, v, ok).saved
  {
    AfterCurrent(k.saved, d, false);
  }

  lemma ShownSaved(k: Slot, d: Driver, v: Allocation)
    requires k.driver == Some(d) && RecordsSaved(k) && IdentityOf(v) == IdentityOf(k.channel)
    ensures RecordsSaved(Publish(k, d, v)) && Publish(k, d, v).saved == k.saved
    ensures RecordsSaved(Send(k, d, v)) && Send(k, d, v).saved == k.saved
  {
    AfterCurrent(k.saved, d, false);
    AfterCurrent(k.saved, d, true);
    OwnerMovedSaved(k, Publish(k, d, v));
  }

  lemma DrivenSaved(id: Id, k: Slot, e: Event, bounded: bool)
    requires k.driver.Some? && Traced(k) && RecordsSaved(k) && Genuine(id, k)
    ensures RecordsSaved(Driven(k, e, bounded)) && k.saved <= Driven(k, e, bounded).saved
  {
    var d := k.driver.value;
    if e.Abort? && MayAbort(d) {
    } else if d.update.Idle? {
      ResumedSaved(k, d, e, bounded);
    } else {
      StoredSaved(k, d, d.update.value, if e.SaveDone? then e.ok else false);
      ShownSaved(k, d, d.update.value);
    }
  }

  /** Nothing saved is forgotten, and no allocation disappears. */
  ghost predicate Remember(slots: map<Id, Slot>, slots': map<Id, Slot>) {
    forall id :: id in slots ==> id in slots' && slots[id].saved <= slots'[id].saved
  }

  lemma StillShown(leaks: seq<Leak>, slots: map<Id, Slot>, slots': map<Id, Slot>)
    requires AllShown(leaks, slots) && Remember(slots, slots')
    ensures AllShown(leaks, slots')
  {
    forall i | 0 <= i < |leaks| ensures leaks[i].id in slots' && Shows(leaks[i], slots'[leaks[i].id]) {
      var l := leaks[i];
      var a :| a in slots[l.id].saved && l.id == a.id && l.state == a.state && l.repository == a.request.repository &&
        l.vmName == a.vmName && l.vmCreated == a.vmCreated && l.runnerId == a.runnerId &&
        (l.reason.NotTerminal? ==> !Terminal(a));
      assert a in slots'[l.id].saved;
    }
  }

  ghost predicate AllRecordSaved(slots: map<Id, Slot>) {
    forall id :: id in slots ==> RecordsSaved(slots[id])
  }

  lemma OneRemembers(slots: map<Id, Slot>, id: Id, k: Slot)
    requires AllRecordSaved(slots) && id in slots && RecordsSaved(k) && slots[id].saved <= k.saved
    ensures AllRecordSaved(slots[id := k]) && Remember(slots, slots[id := k])
  {
  }

  lemma CommitRemembers(s: Sys, tid: nat, id: Id, admitted: bool, saveOk: bool, now: nat)
    requires AllRecordSaved(s.slots)
    ensures var t := Commit(s, tid, id, admitted, saveOk, now); AllRecordSaved(t.slots) && Remember(s.slots, t.slots)
  {
    CommitKeys(s, tid, id, admitted, saveOk, now);
  }

  lemma CloseRemembers(s: Sys, order: seq<Id>)
    requires AllRecordSaved(s.slots)
    ensures AllRecordSaved(Close(s, order).slots) && Remember(s.slots, Close(s, order).slots)
  {
  }

  lemma CancelledSaved(k: Slot)
    requires Traced(k) && RecordsSaved(k)
    ensures RecordsSaved(CancelSlot(k)) && CancelSlot(k).saved == k.saved
  {
    OwnerMovedSaved(k, CancelSlot(k));
  }

  lemma LandedSaved(id: Id, k: Slot, n: nat)
    requires Genuine(id, k) && RecordsSaved(k) && n < |k.adrift|
    ensures RecordsSaved(Landed(k, n)) && k.saved <= Landed(k, n).saved
  {
  }

  lemma ExtraSaved(id: Id, k: Slot, tid: nat, ok: bool)
    requires RecordsSaved(k) && Genuine(id, k) && tid in k.extras
    ensures RecordsSaved(ExtraStep(k, tid, ok)) && k.saved <= ExtraStep(k, tid, ok).saved
  {
    var u := k.extras[tid];
    assert UpdateOf(IdentityOf(k.channel), u);
    if u.Loaded? {
      OwnerMovedSaved(k, k.(extras := k.extras - {tid}));
    } else if u.Saved? || u.Idle? {
      OwnerMovedSaved(k, ExtraStep(k, tid, ok));
    } else {
      OwnerMovedSaved(k, k.(extras := k.extras - {tid}));
    }
  }

  lemma DriveRemembers(s: Sys, id: Id, e: Event)
    requires AllTraced(s) && AllGenuine(s.slots) && AllRecordSaved(s.slots)
    ensures var t := DriveStep(s, id, e); AllRecordSaved(t.slots) && Remember(s.slots, t.slots)
  {
    if id in s.slots && s.slots[id].driver.Some? {
      assert Traced(s.slots[id]) && Genuine(id, s.slots[id]) && RecordsSaved(s.slots[id]);
      DrivenSaved(id, s.slots[id], e, !s.shutdown.NotStarted?);
      OneRemembers(s.slots, id, Driven(s.slots[id], e, !s.shutdown.NotStarted?));
    }
  }

  lemma BesideRemembers(s: Sys, id: Id, tid: nat, ok: bool)
    requires AllTraced(s) && AllGenuine(s.slots) && AllRecordSaved(s.slots)
    ensures var t := BesideStep(s, id, tid, ok); AllRecordSaved(t.slots) && Remember(s.slots, t.slots)
  {
    if id in s.slots && tid in s.slots[id].extras {
      assert Traced(s.slots[id]) && Genuine(id, s.slots[id]) && RecordsSaved(s.slots[id]);
      ExtraSaved(id, s.slots[id], tid, ok);
      OneRemembers(s.slots, id, ExtraStep(s.slots[id], tid, ok));
    }
  }

  lemma CancelRemembers(s: Sys, id: Id)
    requires AllTraced(s) && AllGenuine(s.slots) && AllRecordSaved(s.slots)
    ensures var t := CancelStep(s, id); AllRecordSaved(t.slots) && Remember(s.slots, t.slots)
  {
    if id in s.slots {
      assert Traced(s.slots[id]) && Genuine(id, s.slots[id]) && RecordsSaved(s.slots[id]);
      CancelledSaved(s.slots[id]);
      OneRemembers(s.slots, id, CancelSlot(s.slots[id]));
    }
  }

  lemma LandRemembers(s: Sys, id: Id, n: nat)
    requires AllTraced(s) && AllGenuine(s.slots) && AllRecordSaved(s.slots)
    ensures var t := LandStep(s, id, n); AllRecordSaved(t.slots) && Remember(s.slots, t.slots)
  {
    if id in s.slots && n < |s.slots[id].adrift| {
      assert Traced(s.slots[id]) && Genuine(id, s.slots[id]) && RecordsSaved(s.slots[id]);
      LandedSaved(id, s.slots[id], n);
      OneRemembers(s.slots, id, Landed(s.slots[id], n));
    }
  }

  lemma SpawnRemembers(s: Sys, id: Id, tid: nat, c: Change, now: nat)
    requires AllTraced(s) && AllGenuine(s.slots) && AllRecordSaved(s.slots)
    ensures var t := SpawnStep(s, id, tid, c, now); AllRecordSaved(t.slots) && Remember(s.slots, t.slots)
  {
    if id in s.slots {
      assert Traced(s.slots[id]) && Genuine(id, s.slots[id]) && RecordsSaved(s.slots[id]);
      OwnerMovedSaved(s.slots[id], Spawned(s.slots[id], tid, c, now));
      OneRemembers(s.slots, id, Spawned(s.slots[id], tid, c, now));
    }
  }

  lemma NextRemembers(s: Sys, step: Step)
    requires AllTraced(s) && AllGenuine(s.slots) && AllRecordSaved(s.slots)
    ensures AllRecordSaved(Next(s, step).slots) && Remember(s.slots, Next(s, step).slots)
  {
    match step
    case CreateCommit(tid, id, admitted, saveOk, now) => CommitRemembers(s, tid, id, admitted, saveOk, now);
    case ShutdownStart(order) => CloseRemembers(s, order);
    case Drive(id, e) => DriveRemembers(s, id, e);
    case Extra(id, tid, ok) => BesideRemembers(s, id, tid, ok);
    case Cancel(id) => CancelRemembers(s, id);
    case Land(id, n) => LandRemembers(s, id, n);
    case Spawn(id, tid, c, now) => SpawnRemembers(s, id, tid, c, now);
    case _ => assert Next(s, step).slots == s.slots;
  }

  lemma RecordedShown(leaks: seq<Leak>, slots: map<Id, Slot>, a: Allocation, reason: LeakReason)
    requires AllShown(leaks, slots) && a.id in slots && a in slots[a.id].saved && (reason.NotTerminal? ==> !Terminal(a))
    ensures AllShown(leaks + [LeakOf(a, reason)], slots) && AllShown(WithLeak(leaks, a, reason), slots)
  {
    assert Shows(LeakOf(a, reason), slots[a.id]);
  }

  lemma {:induction false} CollectedShown(leaks: seq<Leak>, awaited: seq<Id>, slots: map<Id, Slot>)
    requires AllShown(leaks, slots) && AllGenuine(slots) && forall id :: id in slots ==> Traced(slots[id])
    ensures AllShown(Collected(leaks, awaited, Entries(slots)), slots)
  {
    if awaited != [] {
      var init, id := awaited[..|awaited| - 1], awaited[|awaited| - 1];
      CollectedShown(leaks, init, slots);
      if Unfinished(Entries(slots), id) {
        assert Genuine(id, slots[id]) && Traced(slots[id]);
        RecordedShown(Collected(leaks, init, Entries(slots)), slots, Entries(slots)[id], NotTerminal);
      }
    }
  }

  lemma DriveShown(s: Sys, id: Id, e: Event)
    requires AllTraced(s) && AllGenuine(s.slots) && LeaksShown(s)
    requires id in s.slots && s.slots[id].driver.Some?
    ensures AllShown(DriveStep(s, id, e).leaked, s.slots)
  {
    var d := s.slots[id].driver.value;
    assert RecordsSaved(s.slots[id]);
    if d.phase.Leaking? {
      assert Genuine(id, s.slots[id]) && IdentityOf(d.phase.current).id == id;
      RecordedShown(s.leaked, s.slots, d.phase.current, CleanupFailed);
    }
  }

  lemma NextShown(s: Sys, step: Step)
    requires AllTraced(s) && AllGenuine(s.slots) && LeaksShown(s)
    ensures LeaksShown(Next(s, step))
  {
    var s' := Next(s, step);
    NextRemembers(s, step);
    StillShown(s.leaked, s.slots, s'.slots);
    StillShown(Listed(s), s.slots, s'.slots);
    if step.Drive? && step.id in s.slots && s.slots[step.id].driver.Some? {
      DriveShown(s, step.id, step.event);
      StillShown(s'.leaked, s.slots, s'.slots);
    } else if step.ShutdownCollect? && s.shutdown.Collecting? {
      CollectedShown(s.shutdown.taken, s.shutdown.awaited, s.slots);
    }
  }

  lemma {:induction false} RunShown(config: Config, limit: nat, steps: seq<Step>)
    ensures LeaksShown(Run(Start(config, limit), steps))
  {
    if steps != [] {
      var before := steps[..|steps| - 1];
      RunShown(config, limit, before);
      SavedBeforeSeen(config, limit, before);
      RunGenuine(config, limit, before);
      NextShown(Run(Start(config, limit), before), steps[|steps| - 1]);
    }
  }

  /** In every run, each leak of the report names the machine, the repository and the runner of the
      allocation it is listed under, in a state that allocation was saved in, and no finished one is
      listed as unfinished. */
  lemma LeaksNameTheirMachine(config: Config, limit: nat, steps: seq<Step>, l: Leak)
    requires var s := Run(Start(config, limit), steps); s.shutdown.Reported? && l in s.shutdown.report
    ensures var s := Run(Start(config, limit), steps);
            && l.id in s.slots
            && l.vmName == s.slots[l.id].channel.vmName
            && l.repository == s.slots[l.id].channel.request.repository
            && exists a :: && a in s.slots[l.id].saved && a.id == l.id && a.state == l.state
                           && a.vmCreated == l.vmCreated && a.runnerId == l.runnerId
                           && (l.reason.NotTerminal? ==> !Terminal(a))
  {
    RunShown(config, limit, steps);
    RunGenuine(config, limit, steps);
    var s := Run(Start(config, limit), steps);
    var i :| 0 <= i < |s.shutdown.report| && s.shutdown.report[i] == l;
    assert Shows(l, s.slots[l.id]) && Genuine(l.id, s.slots[l.id]);
    assert RecordsSaved(s.slots[l.id]);
  }
}
