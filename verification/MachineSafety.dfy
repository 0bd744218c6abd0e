/** What every run of the allocation manager keeps. */
module MachineSafety {
  import opened Base
  import opened Allocations
  import opened Machine
  import VmNames
  import History

  // ---------------------------------------------------------------- saved before seen

  predicate TracedUpdate(saved: set<Allocation>, u: Update) {
    u.Saved? || u.Published? ==> u.value in saved
  }

  /** Every value the entry, the channel or an update past its save holds was saved before. */
  predicate Traced(k: Slot) {
    && (k.entry.Some? ==> k.entry.value.allocation in k.saved)
    && k.channel in k.saved
    && k.record in k.saved
    && (k.driver.Some? ==> TracedUpdate(k.saved, k.driver.value.update))
    && TracedExtras(k.saved, k.extras)
  }

  predicate TracedExtras(saved: set<Allocation>, extras: map<nat, Update>) {
    forall tid :: tid in extras ==> TracedUpdate(saved, extras[tid])
  }

  lemma SaveTraced(k: Slot, v: Allocation)
    requires Traced(k)
    ensures Traced(Save(k, v))
  {
  }

  lemma LoadTraced(k: Slot, d: Driver, c: Change, now: nat)
    requires Traced(k) && d.update.Idle?
    ensures Traced(Load(k, d, c, now))
  {
  }

  /** A step that moves only the owner keeps the rest traced. */
  lemma TaskMovedTraced(k: Slot, k': Slot)
    requires Traced(k) && k'.saved == k.saved && k'.channel == k.channel && k'.record == k.record &&
        k'.extras == k.extras
    requires k'.entry.Some? ==> k.entry.Some? && k'.entry.value.allocation == k.entry.value.allocation
    requires k'.driver.Some? ==> TracedUpdate(k.saved, k'.driver.value.update)
    ensures Traced(k')
  {
  }

  lemma AdvancedTraced(k: Slot, d: Driver, e: Event, p: Phase)
    requires d.update.Idle? && Traced(k)
    ensures Traced(Advanced(k, d, e, p))
  {
    TaskMovedTraced(k, Advanced(k, d, e, p));
  }

  lemma ResumedTraced(k: Slot, d: Driver, e: Event, bounded: bool)
    requires d.update.Idle? && Traced(k)
    ensures Traced(Resumed(k, d, e, bounded))
  {
    if d.phase.Working? && e.Report? && Reportable(e.change) {
      LoadTraced(k, d, e.change, e.at);
    } else if Writes(d.phase) && e.Proceed? {
      LoadTraced(k, d, ChangeFor(d.phase), e.now);
    } else if d.phase.Releasing? && e.Proceed? {
      TaskMovedTraced(k, Released(k, d));
    } else {
      AdvancedTraced(k, d, e, Moved(k, d, e, bounded));
    }
  }

  lemma SettledTraced(k: Slot, d: Driver, v: Allocation, ok: bool)
    requires Traced(k)
    ensures Traced(SaveReturned(k, d, v, ok))
    ensures v in k.saved ==> Traced(Publish(k, d, v)) && Traced(Send(k, d, v))
  {
  }

  lemma AbortedTraced(k: Slot, d: Driver)
    requires Traced(k)
    ensures Traced(Aborted(k, d))
  {
  }

  lemma DrivenTraced(k: Slot, e: Event, bounded: bool)
    requires k.driver.Some? && Traced(k)
    ensures Traced(Driven(k, e, bounded))
  {
    var d := k.driver.value;
    if e.Abort? && MayAbort(d) {
      AbortedTraced(k, d);
    } else if d.update.Idle? {
      ResumedTraced(k, d, e, bounded);
    } else {
      SettledTraced(k, d, d.update.value, if e.SaveDone? then e.ok else false);
    }
  }

  lemma ExtraTraced(k: Slot, tid: nat, ok: bool)
    requires tid in k.extras && Traced(k)
    ensures Traced(ExtraStep(k, tid, ok))
  {
    assert TracedUpdate(k.saved, k.extras[tid]);
    ExtrasWithout(k.saved, k.extras, tid);
    match k.extras[tid]
    case Loaded(v) => SavedBesideTraced(k, tid, v);
    case Saved(v) => PublishedBesideTraced(k, tid, v);
    case Published(v) => SentBesideTraced(k, tid, v);
    case Idle =>
  }

  lemma SavedBesideTraced(k: Slot, tid: nat, v: Allocation)
    requires Traced(k)
    ensures Traced(Save(k, v).(extras := k.extras[tid := Saved(v)]))
  {
    SaveTraced(k, v);
    ExtrasWith(k.saved + {v}, k.extras, tid, Saved(v));
  }

  lemma PublishedBesideTraced(k: Slot, tid: nat, v: Allocation)
    requires Traced(k) && v in k.saved
    ensures k.entry.Some? ==>
        Traced(k.(entry := Some(k.entry.value.(allocation := v)), extras := k.extras[tid := Published(v)]))
  {
    ExtrasWith(k.saved, k.extras, tid, Published(v));
  }

  lemma SentBesideTraced(k: Slot, tid: nat, v: Allocation)
    requires Traced(k) && v in k.saved
    ensures Traced(k.(channel := v, extras := k.extras - {tid}))
  {
    ExtrasWithout(k.saved, k.extras, tid);
  }

  lemma ExtrasWith(saved: set<Allocation>, extras: map<nat, Update>, tid: nat, u: Update)
    requires TracedExtras(saved, extras) && TracedUpdate(saved, u)
    ensures TracedExtras(saved, extras[tid := u])
  {
  }

  lemma ExtrasWithout(saved: set<Allocation>, extras: map<nat, Update>, tid: nat)
    requires TracedExtras(saved, extras)
    ensures TracedExtras(saved, extras - {tid})
  {
  }

  ghost predicate AllTraced(s: Sys) {
    forall id :: id in s.slots ==> Traced(s.slots[id])
  }

  lemma NextTraced(s: Sys, step: Step)
    requires AllTraced(s)
    ensures AllTraced(Next(s, step))
  {
    match step
    case Drive(id, e) => DriveTraced(s, id, e);
    case Extra(id, tid, ok) => BesideTraced(s, id, tid, ok);
    case Spawn(id, tid, c, now) => SpawnTraced(s, id, tid, c, now);
    case Land(id, n) => LandTraced(s, id, n);
    case Cancel(id) => CancelTraced(s, id);
    case CreateCommit(tid, id, admitted, saveOk, now) => CommitTraced(s, tid, id, admitted, saveOk, now);
    case ShutdownStart(order) => CloseTraced(s, order);
    case _ =>
  }

  lemma DriveTraced(s: Sys, id: Id, e: Event)
    requires AllTraced(s)
    ensures AllTraced(DriveStep(s, id, e))
  {
    if id in s.slots && s.slots[id].driver.Some? {
      DrivenTraced(s.slots[id], e, !s.shutdown.NotStarted?);
    }
  }

  lemma BesideTraced(s: Sys, id: Id, tid: nat, ok: bool)
    requires AllTraced(s)
    ensures AllTraced(BesideStep(s, id, tid, ok))
  {
    if id in s.slots && tid in s.slots[id].extras {
      ExtraTraced(s.slots[id], tid, ok);
    }
  }

  lemma SpawnTraced(s: Sys, id: Id, tid: nat, c: Change, now: nat)
    requires AllTraced(s)
    ensures AllTraced(SpawnStep(s, id, tid, c, now))
  {
  }

  lemma LandTraced(s: Sys, id: Id, n: nat)
    requires AllTraced(s)
    ensures AllTraced(LandStep(s, id, n))
  {
    if id in s.slots && n < |s.slots[id].adrift| {
      SaveTraced(s.slots[id], s.slots[id].adrift[n]);
    }
  }

  lemma CancelTraced(s: Sys, id: Id)
    requires AllTraced(s)
    ensures AllTraced(CancelStep(s, id))
  {
  }

  lemma CommitTraced(s: Sys, tid: nat, id: Id, admitted: bool, saveOk: bool, now: nat)
    requires AllTraced(s)
    ensures AllTraced(Commit(s, tid, id, admitted, saveOk, now))
  {
  }

  lemma CloseTraced(s: Sys, order: seq<Id>)
    requires AllTraced(s)
    ensures AllTraced(Close(s, order))
  {
  }

  /** In every run, with any number of overlapping updates, what an entry or its channel shows
      was in the store first. */
  lemma {:induction false} SavedBeforeSeen(config: Config, limit: nat, steps: seq<Step>)
    ensures AllTraced(Run(Start(config, limit), steps))
  {
    if steps != [] {
      SavedBeforeSeen(config, limit, steps[..|steps| - 1]);
      NextTraced(Run(Start(config, limit), steps[..|steps| - 1]), steps[|steps| - 1]);
    }
  }

  // ---------------------------------------------------------------- one owner per allocation

  predicate SameIdentity(a: Allocation, b: Allocation) {
    a.id == b.id && a.request == b.request && a.vmName == b.vmName && a.createdAt == b.createdAt
  }

  predicate Succeeded(a: Allocation) {
    a.state.Completed? || a.state.Cancelled?
  }

  /** What the store holds once the owner wrote `v`: that, unless an abandoned update left something
      there since. */
  function StoredOf(k: Slot, v: Allocation): Allocation {
    if k.stranded.Some? then k.stranded.value else v
  }

  /** Nothing of this allocation is in flight: channel and entry agree, and the store holds the same
      value or the one an abandoned update stranded there. A pruned allocation was finished. */
  predicate InStep(k: Slot) {
    if k.entry.None? then Terminal(k.channel)
    else
      k.channel == k.entry.value.allocation &&
      k.record == StoredOf(k, k.entry.value.allocation)
  }

  predicate UpdateOk(k: Slot, u: Update) {
    match u
    case Idle => InStep(k)
    case Loaded(v) => InStep(k) && Live(k) && Advances(k.entry.value.allocation, v)
    case Saved(v) =>
      Live(k) && k.channel == k.entry.value.allocation && k.record == StoredOf(k, v) &&
      Advances(k.entry.value.allocation, v)
    case Published(v) =>
      k.record == StoredOf(k, v) && Advances(k.channel, v) && !Terminal(k.channel) &&
      (if k.entry.Some? then k.entry.value.allocation == v else Terminal(v))
  }

  predicate MayUpdate(p: Phase) {
    p.Working? || p.NotingExit? || p.Entering? || p.NotingFailure? || p.EnteringAgain? || p.Closing?
  }

  /** The task still has the terminal transition ahead of it. */
  predicate Active(d: Driver) {
    !d.phase.Releasing? && !(d.phase.Closing? && d.update.Published?)
  }

  predicate PhaseOk(id: Id, k: Slot, p: Phase) {
    match p
    case Checking(w) => IsTerminal(w)
    case Entering(w) => IsTerminal(w)
    case Refreshing(w) => IsTerminal(w)
    case Budgeting(w, c) => IsTerminal(w) && c.id == id
    case Attempting(w, c, b, left) => IsTerminal(w) && c.id == id && 1 <= left <= if b then 1 else 3
    case Leaking(c) => c.id == id
    case CheckingAgain(f) => IsTerminal(f) && (f.Failed? || k.cleaned)
    case EnteringAgain(f) => IsTerminal(f) && (f.Failed? || k.cleaned)
    case Finishing(f) => IsTerminal(f) && (f.Failed? || k.cleaned)
    case Closing(f) => IsTerminal(f) && (f.Failed? || k.cleaned)
    case _ => true
  }

  predicate DriverOk(id: Id, k: Slot, d: Driver) {
    && UpdateOk(k, d.update)
    && PhaseOk(id, k, d.phase)
    && (Active(d) ==> Live(k))
    && (!d.update.Idle? ==> MayUpdate(d.phase))
    && (!d.update.Idle? ==>
       if d.phase.Closing? then d.update.value.state == d.phase.final else !Terminal(d.update.value))
    && d.fallback.id == id
    && (k.entry.Some? ==> k.entry.value.supervised == d.kind.Worker? && k.entry.value.terminalizing == d.kind.Operator?)
  }

  /** Abandoned saves are of this allocation, and successes among them come after a cleanup. */
  predicate AdriftOk(a: Allocation, cleaned: bool, adrift: seq<Allocation>) {
    forall i :: 0 <= i < |adrift| ==> SameIdentity(a, adrift[i]) && (Succeeded(adrift[i]) ==> cleaned)
  }

  /** What an owner keeps true of its allocation, whatever the store and the backend do and wherever it
      is dropped. */
  predicate Owned(id: Id, k: Slot) {
    && k.extras == map[]
    && k.channel.id == id
    && SameIdentity(k.channel, k.record)
    && (k.entry.Some? ==> SameIdentity(k.channel, k.entry.value.allocation))
    && (k.entry.Some? && Succeeded(k.entry.value.allocation) ==> k.cleaned)
    && (Succeeded(k.channel) || Succeeded(k.record) ==> k.cleaned)
    && AdriftOk(k.channel, k.cleaned, k.adrift)
    && (match k.driver
        case Some(d) => DriverOk(id, k, d)
        case None => InStep(k) && (k.entry.Some? ==> !k.entry.value.supervised))
  }

  lemma LoadOwned(id: Id, k: Slot, d: Driver, c: Change, now: nat)
    requires k.driver == Some(d) && Owned(id, k) && d.update.Idle? && Active(d) && MayUpdate(d.phase)
    requires if d.phase.Closing? then c == ToState(d.phase.final) else c.ToState? ==> !IsTerminal(c.state)
    ensures Owned(id, Load(k, d, c, now))
  {
    AppliedAdvances(k.entry.value.allocation, c, now);
    if Applied(k.entry.value.allocation, c, now).Some? {
      LoadedOwned(id, k, d, Applied(k.entry.value.allocation, c, now).value);
    } else {
      GivenUpOwned(id, k, d);
    }
  }

  lemma LoadedOwned(id: Id, k: Slot, d: Driver, v: Allocation)
    requires k.driver == Some(d) && Owned(id, k) && d.update.Idle? && Active(d) && MayUpdate(d.phase)
    requires Advances(k.entry.value.allocation, v)
    requires if d.phase.Closing? then v.state == d.phase.final else !Terminal(v)
    ensures Owned(id, At(k, d.(update := Loaded(v))))
  {
  }

  lemma GivenUpOwned(id: Id, k: Slot, d: Driver)
    requires k.driver == Some(d) && Owned(id, k) && d.update.Idle? && Active(d) && MayUpdate(d.phase)
    ensures Owned(id, At(k, After(d, false)))
  {
  }

  lemma MovedOwned(id: Id, k: Slot, d: Driver, e: Event, bounded: bool)
    requires k.driver == Some(d) && Owned(id, k) && d.update.Idle?
    requires !(e.Proceed? && (Writes(d.phase) || d.phase.Releasing?))
    ensures var p := Moved(k, d, e, bounded);
            PhaseOk(id, Resumed(k, d, e, bounded), p) && (p.Releasing? || d.phase.Releasing? || Live(k))
  {
  }

  lemma ResumedOwned(id: Id, k: Slot, d: Driver, e: Event, bounded: bool)
    requires k.driver == Some(d) && Owned(id, k) && d.update.Idle?
    ensures Owned(id, Resumed(k, d, e, bounded))
  {
    if d.phase.Working? && e.Report? && Reportable(e.change) {
      LoadOwned(id, k, d, e.change, e.at);
    } else if Writes(d.phase) && e.Proceed? {
      LoadOwned(id, k, d, ChangeFor(d.phase), e.now);
    } else if d.phase.Releasing? && e.Proceed? {
    } else {
      MovedOwned(id, k, d, e, bounded);
    }
  }

  lemma SaveReturnedOwned(id: Id, k: Slot, d: Driver, ok: bool)
    requires k.driver == Some(d) && Owned(id, k) && d.update.Loaded?
    ensures Owned(id, SaveReturned(k, d, d.update.value, ok))
  {
  }

  lemma PublishOwned(id: Id, k: Slot, d: Driver)
    requires k.driver == Some(d) && Owned(id, k) && d.update.Saved?
    ensures Owned(id, Publish(k, d, d.update.value))
  {
  }

  lemma SendOwned(id: Id, k: Slot, d: Driver)
    requires k.driver == Some(d) && Owned(id, k) && d.update.Published?
    ensures Owned(id, Send(k, d, d.update.value))
  {
  }

  lemma AbortedOwned(id: Id, k: Slot, d: Driver)
    requires k.driver == Some(d) && Owned(id, k) && MayAbort(d)
    ensures Owned(id, Aborted(k, d))
  {
  }

  lemma DrivenOwned(id: Id, k: Slot, e: Event, bounded: bool)
    requires k.driver.Some? && Owned(id, k)
    ensures Owned(id, Driven(k, e, bounded))
  {
    var d := k.driver.value;
    if e.Abort? && MayAbort(d) {
      AbortedOwned(id, k, d);
    } else if d.update.Idle? {
      ResumedOwned(id, k, d, e, bounded);
    } else if d.update.Loaded? && e.SaveDone? {
      SaveReturnedOwned(id, k, d, e.ok);
    } else if d.update.Saved? && e.Proceed? {
      PublishOwned(id, k, d);
    } else if d.update.Published? && e.Proceed? {
      SendOwned(id, k, d);
    }
  }

  // ---------------------------------------------------------------- forward only

  /** An allocation only moves along its lifecycle and is never taken back under supervision. */
  predicate Onward(k: Slot, k': Slot) {
    && Advances(k.channel, k'.channel)
    && (k'.entry.Some? ==> k.entry.Some? && Advances(k.entry.value.allocation, k'.entry.value.allocation) &&
                           (k'.entry.value.supervised ==> k.entry.value.supervised))
    && (k.cleaned ==> k'.cleaned)
    && (k.failed ==> k'.failed)
  }

  /** A step that moves only the owner moves nothing back. */
  lemma TaskMovedOnward(k: Slot, k': Slot)
    requires k'.channel == k.channel && (k.cleaned ==> k'.cleaned) && (k.failed ==> k'.failed)
    requires k'.entry.Some? ==> k.entry.Some? && k'.entry.value.allocation == k.entry.value.allocation &&
                                (k'.entry.value.supervised ==> k.entry.value.supervised)
    ensures Onward(k, k')
  {
  }

  lemma ResumedOnward(k: Slot, d: Driver, e: Event, bounded: bool)
    ensures Onward(k, Resumed(k, d, e, bounded))
  {
    TaskMovedOnward(k, Resumed(k, d, e, bounded));
  }

  lemma WrittenOnward(id: Id, k: Slot, d: Driver, ok: bool)
    requires k.driver == Some(d) && Owned(id, k) && !d.update.Idle?
    ensures d.update.Loaded? ==> Onward(k, SaveReturned(k, d, d.update.value, ok))
    ensures d.update.Saved? ==> Onward(k, Publish(k, d, d.update.value))
    ensures d.update.Published? ==> Onward(k, Send(k, d, d.update.value))
  {
  }

  lemma DrivenOnward(id: Id, k: Slot, e: Event, bounded: bool)
    requires k.driver.Some? && Owned(id, k)
    ensures Onward(k, Driven(k, e, bounded))
  {
    var d := k.driver.value;
    if e.Abort? && MayAbort(d) {
      TaskMovedOnward(k, Aborted(k, d));
    } else if d.update.Idle? {
      ResumedOnward(k, d, e, bounded);
    } else if (d.update.Loaded? && e.SaveDone?) || (!d.update.Loaded? && e.Proceed?) {
      WrittenOnward(id, k, d, if e.SaveDone? then e.ok else false);
    } else {
      TaskMovedOnward(k, k);
    }
  }

  lemma CancelOwned(id: Id, k: Slot)
    requires Owned(id, k)
    ensures Owned(id, CancelSlot(k)) && Onward(k, CancelSlot(k))
  {
    if Live(k) && !k.entry.value.supervised && !k.entry.value.terminalizing {
      TakenUpOwned(id, k);
    } else {
      TaskMovedOnward(k, CancelSlot(k));
    }
  }

  /** A cancel of work nobody drives. */
  lemma TakenUpOwned(id: Id, k: Slot)
    requires Owned(id, k) && Live(k) && !k.entry.value.supervised && !k.entry.value.terminalizing
    ensures Owned(id, CancelSlot(k)) && Onward(k, CancelSlot(k))
  {
    assert k.driver.None?;
  }

  lemma PrunedOwned(id: Id, k: Slot)
    requires Owned(id, k) && !Live(k)
    ensures Owned(id, k.(entry := None)) && Onward(k, k.(entry := None))
  {
  }

  lemma FreshOwned(id: Id, a: Allocation, prefix: string)
    requires a.id == id && a.state.Requested?
    ensures Owned(id, FreshSlot(a, prefix))
  {
  }

  lemma TrimmedOnlyFinished(slots: map<Id, Slot>, limit: nat)
    ensures Trimmed(slots, limit).Keys == slots.Keys
    ensures forall id :: id in slots && Live(slots[id]) ==> Trimmed(slots, limit)[id] == slots[id]
    ensures forall id :: id in slots ==> Trimmed(slots, limit)[id] == slots[id] ||
                                         Trimmed(slots, limit)[id] == slots[id].(entry := None)
  {
    var m := Entries(slots);
    History.KeptIsPruning(m, m.Keys, limit);
    forall id | id in slots && Live(slots[id]) ensures id in History.Kept(m, m.Keys, limit) {
      assert id in m.Keys && id !in History.Finished(m, m.Keys);
    }
  }

  ghost predicate AllOwned(slots: map<Id, Slot>) {
    forall id :: id in slots ==> Owned(id, slots[id])
  }

  ghost predicate AllOnward(slots: map<Id, Slot>, slots': map<Id, Slot>) {
    slots.Keys <= slots'.Keys && forall id :: id in slots ==> Onward(slots[id], slots'[id])
  }

  lemma OneSlotOwned(slots: map<Id, Slot>, id: Id, k: Slot)
    requires AllOwned(slots) && id in slots && Owned(id, k) && Onward(slots[id], k)
    ensures AllOwned(slots[id := k]) && AllOnward(slots, slots[id := k])
  {
  }

  lemma SignalledOwned(slots: map<Id, Slot>, order: seq<Id>)
    requires AllOwned(slots)
    ensures AllOwned(Signalled(slots, order)) && AllOnward(slots, Signalled(slots, order))
  {
    forall id | id in slots
      ensures Owned(id, slots[id].(cancelled := true)) && Onward(slots[id], slots[id].(cancelled := true)) {
    }
  }

  lemma CreatedOwned(s: Sys, p: Pending, id: Id, admitted: bool, saveOk: bool, now: nat)
    requires AllOwned(s.slots)
    ensures var s' := Created(s, p, id, admitted, saveOk, now); AllOwned(s'.slots) && AllOnward(s.slots, s'.slots)
  {
    var s' := Created(s, p, id, admitted, saveOk, now);
    if s'.slots != s.slots {
      var slots := s.slots[id := NewSlot(id, p.request, p.config.prefix, now)];
      FreshOwned(id, NewAllocation(id, p.request, VmNames.VmText(p.config.prefix, p.request), now), p.config.prefix);
      assert AllOwned(slots);
      TrimmedOwned(slots, s.limit);
      forall i | i in s.slots ensures Onward(s.slots[i], s'.slots[i]) {
        assert Onward(slots[i], s'.slots[i]);
      }
    } else {
      StandingStill(s.slots);
    }
  }

  lemma TrimmedOwned(slots: map<Id, Slot>, limit: nat)
    requires AllOwned(slots)
    ensures AllOwned(Trimmed(slots, limit)) && AllOnward(slots, Trimmed(slots, limit))
  {
    TrimmedOnlyFinished(slots, limit);
    var kept := Trimmed(slots, limit);
    StandingStill(slots);
    forall i | i in slots ensures Owned(i, kept[i]) && Onward(slots[i], kept[i]) {
      if kept[i] != slots[i] {
        PrunedOwned(i, slots[i]);
      }
    }
  }

  lemma DriveOwned(s: Sys, id: Id, e: Event)
    requires AllOwned(s.slots)
    ensures AllOwned(DriveStep(s, id, e).slots) && AllOnward(s.slots, DriveStep(s, id, e).slots)
  {
    if id in s.slots && s.slots[id].driver.Some? {
      var bounded := !s.shutdown.NotStarted?;
      DrivenOwned(id, s.slots[id], e, bounded);
      DrivenOnward(id, s.slots[id], e, bounded);
      OneSlotOwned(s.slots, id, Driven(s.slots[id], e, bounded));
    }
  }

  lemma LandedOwned(id: Id, k: Slot, n: nat)
    requires Owned(id, k) && n < |k.adrift|
    ensures Owned(id, Landed(k, n)) && Onward(k, Landed(k, n))
  {
    var rest := k.adrift[..n] + k.adrift[n + 1..];
    forall i | 0 <= i < |rest| ensures SameIdentity(k.channel, rest[i]) && (Succeeded(rest[i]) ==> k.cleaned) {
      assert rest[i] == k.adrift[if i < n then i else i + 1];
    }
  }

  lemma LandOwned(s: Sys, id: Id, n: nat)
    requires AllOwned(s.slots)
    ensures AllOwned(LandStep(s, id, n).slots) && AllOnward(s.slots, LandStep(s, id, n).slots)
  {
    if id in s.slots && n < |s.slots[id].adrift| {
      LandedOwned(id, s.slots[id], n);
      OneSlotOwned(s.slots, id, Landed(s.slots[id], n));
    } else {
      StandingStill(s.slots);
    }
  }

  lemma CancelStepOwned(s: Sys, id: Id)
    requires AllOwned(s.slots)
    ensures AllOwned(CancelStep(s, id).slots) && AllOnward(s.slots, CancelStep(s, id).slots)
  {
    if id in s.slots {
      CancelOwned(id, s.slots[id]);
      OneSlotOwned(s.slots, id, CancelSlot(s.slots[id]));
    }
  }

  lemma StandingStill(slots: map<Id, Slot>)
    ensures AllOnward(slots, slots)
  {
  }

  lemma CommitOwned(s: Sys, tid: nat, id: Id, admitted: bool, saveOk: bool, now: nat)
    requires AllOwned(s.slots)
    ensures var s' := Commit(s, tid, id, admitted, saveOk, now); AllOwned(s'.slots) && AllOnward(s.slots, s'.slots)
  {
    if tid in s.creates {
      CreatedOwned(s.(creates := s.creates - {tid}), s.creates[tid], id, admitted, saveOk, now);
    }
  }

  /** Without overlapping updates every step keeps each allocation consistent and moves it forward. */
  lemma NextOwned(s: Sys, step: Step)
    requires AllOwned(s.slots) && !step.Spawn?
    ensures AllOwned(Next(s, step).slots) && AllOnward(s.slots, Next(s, step).slots)
  {
    match step
    case CreateCommit(tid, id, admitted, saveOk, now) => CommitOwned(s, tid, id, admitted, saveOk, now);
    case Cancel(id) => CancelStepOwned(s, id);
    case Drive(id, e) => DriveOwned(s, id, e);
    case Land(id, n) => LandOwned(s, id, n);
    case ShutdownStart(order) =>
      SignalledOwned(s.slots, order);
      StandingStill(s.slots);
    case Extra(id, tid, ok) =>
      assert id in s.slots ==> Owned(id, s.slots[id]);
      StandingStill(s.slots);
    case _ =>
      StandingStill(s.slots);
  }
}
