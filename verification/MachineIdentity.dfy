/** What every run keeps, however its updates overlap: who an allocation is, where its machine name
    comes from, and exactly which step can give one attempt two live allocations. */
module MachineIdentity {
  import opened Base
  import opened Allocations
  import opened Machine
  import opened MachineSafety
  import VmNames

  // ---------------------------------------------------------------- who an allocation is

  /** The parts of a record no update touches. */
  datatype Identity = Identity(id: Id, request: Request, vmName: string, createdAt: nat)

  function IdentityOf(a: Allocation): Identity {
    Identity(a.id, a.request, a.vmName, a.createdAt)
  }

  predicate UpdateOf(i: Identity, u: Update) {
    !u.Idle? ==> IdentityOf(u.value) == i
  }

  predicate ExtrasOf(i: Identity, extras: map<nat, Update>) {
    forall tid :: tid in extras ==> UpdateOf(i, extras[tid])
  }

  predicate AdriftOf(i: Identity, adrift: seq<Allocation>) {
    forall n :: 0 <= n < |adrift| ==> IdentityOf(adrift[n]) == i
  }

  /** Entry, channel, store and every value in flight belong to one allocation. */
  predicate Holds(i: Identity, k: Slot) {
    && IdentityOf(k.channel) == i && IdentityOf(k.record) == i
    && (k.entry.Some? ==> IdentityOf(k.entry.value.allocation) == i)
    && (k.driver.Some? ==> UpdateOf(i, k.driver.value.update))
    && ExtrasOf(i, k.extras) && AdriftOf(i, k.adrift)
  }

  lemma AppliedKeeps(a: Allocation, c: Change, now: nat)
    ensures Applied(a, c, now).Some? ==> IdentityOf(Applied(a, c, now).value) == IdentityOf(a)
  {
  }

  lemma LoadHolds(i: Identity, k: Slot, d: Driver, c: Change, now: nat)
    requires Holds(i, k) && d.update.Idle?
    ensures Holds(i, Load(k, d, c, now)) && Load(k, d, c, now).prefix == k.prefix
  {
    if k.entry.Some? {
      AppliedKeeps(k.entry.value.allocation, c, now);
    }
  }

  /** A step that moves only the owner. */
  lemma OwnerMovedHolds(i: Identity, k: Slot, k': Slot)
    requires Holds(i, k) && k'.channel == k.channel && k'.record == k.record && k'.extras == k.extras
    requires k'.adrift == k.adrift
    requires k'.entry.Some? ==> k.entry.Some? && k'.entry.value.allocation == k.entry.value.allocation
    requires k'.driver.Some? ==> UpdateOf(i, k'.driver.value.update)
    ensures Holds(i, k')
  {
  }

  lemma ResumedHolds(i: Identity, k: Slot, d: Driver, e: Event, bounded: bool)
    requires d.update.Idle? && Holds(i, k)
    ensures Holds(i, Resumed(k, d, e, bounded)) && Resumed(k, d, e, bounded).prefix == k.prefix
  {
    if d.phase.Working? && e.Report? && Reportable(e.change) {
      LoadHolds(i, k, d, e.change, e.at);
    } else if Writes(d.phase) && e.Proceed? {
      LoadHolds(i, k, d, ChangeFor(d.phase), e.now);
    } else if d.phase.Releasing? && e.Proceed? {
      OwnerMovedHolds(i, k, Released(k, d));
    } else {
      AdvancedHolds(i, k, d, e, Moved(k, d, e, bounded));
    }
  }

  lemma AdvancedHolds(i: Identity, k: Slot, d: Driver, e: Event, p: Phase)
    requires d.update.Idle? && Holds(i, k)
    ensures Holds(i, Advanced(k, d, e, p)) && Advanced(k, d, e, p).prefix == k.prefix
  {
    OwnerMovedHolds(i, k, Advanced(k, d, e, p));
  }

  lemma WritingHolds(i: Identity, k: Slot, d: Driver, v: Allocation, ok: bool)
    requires Holds(i, k) && IdentityOf(v) == i
    ensures Holds(i, SaveReturned(k, d, v, ok)) && SaveReturned(k, d, v, ok).prefix == k.prefix
    ensures Holds(i, Publish(k, d, v)) && Publish(k, d, v).prefix == k.prefix
    ensures Holds(i, Send(k, d, v)) && Send(k, d, v).prefix == k.prefix
  {
  }

  lemma AbortedHolds(i: Identity, k: Slot, d: Driver)
    requires Holds(i, k) && UpdateOf(i, d.update)
    ensures Holds(i, Aborted(k, d)) && Aborted(k, d).prefix == k.prefix
  {
  }

  lemma DrivenHolds(i: Identity, k: Slot, e: Event, bounded: bool)
    requires k.driver.Some? && Holds(i, k)
    ensures Holds(i, Driven(k, e, bounded)) && Driven(k, e, bounded).prefix == k.prefix
  {
    var d := k.driver.value;
    if e.Abort? && MayAbort(d) {
      AbortedHolds(i, k, d);
    } else if d.update.Idle? {
      ResumedHolds(i, k, d, e, bounded);
    } else {
      WritingHolds(i, k, d, d.update.value, if e.SaveDone? then e.ok else false);
    }
  }

  lemma ExtraHolds(i: Identity, k: Slot, tid: nat, ok: bool)
    requires tid in k.extras && Holds(i, k)
    ensures Holds(i, ExtraStep(k, tid, ok)) && ExtraStep(k, tid, ok).prefix == k.prefix
  {
    var u := k.extras[tid];
    assert UpdateOf(i, u);
    WithoutOf(i, k.extras, tid);
    if u.Loaded? {
      WithOf(i, k.extras, tid, Saved(u.value));
    } else if u.Saved? {
      WithOf(i, k.extras, tid, Published(u.value));
    }
    ExtraParts(i, k, tid, ok);
  }

  lemma ExtraParts(i: Identity, k: Slot, tid: nat, ok: bool)
    requires tid in k.extras && Holds(i, k) && UpdateOf(i, k.extras[tid])
    ensures var k' := ExtraStep(k, tid, ok);
            && k'.prefix == k.prefix && IdentityOf(k'.channel) == i && IdentityOf(k'.record) == i &&
               k'.driver == k.driver
            && (k'.entry.Some? ==> IdentityOf(k'.entry.value.allocation) == i)
  {
  }

  lemma WithOf(i: Identity, extras: map<nat, Update>, tid: nat, u: Update)
    requires ExtrasOf(i, extras) && UpdateOf(i, u)
    ensures ExtrasOf(i, extras[tid := u])
  {
  }

  lemma WithoutOf(i: Identity, extras: map<nat, Update>, tid: nat)
    requires ExtrasOf(i, extras)
    ensures ExtrasOf(i, extras - {tid})
  {
  }

  lemma SpawnHolds(i: Identity, k: Slot, tid: nat, c: Change, now: nat)
    requires Holds(i, k)
    ensures Holds(i, Spawned(k, tid, c, now)) && Spawned(k, tid, c, now).prefix == k.prefix
  {
    if k.entry.Some? {
      AppliedKeeps(k.entry.value.allocation, c, now);
    }
  }

  /** An allocation is filed under its id and named after the prefix recorded for it. */
  predicate Genuine(id: Id, k: Slot) {
    && Holds(IdentityOf(k.channel), k)
    && k.channel.id == id && k.channel.vmName == VmNames.VmText(k.prefix, k.channel.request)
  }

  ghost predicate AllGenuine(slots: map<Id, Slot>) {
    forall id :: id in slots ==> Genuine(id, slots[id])
  }

  /** No allocation becomes another one, and none loses the prefix it was named after. */
  ghost predicate SameOnes(slots: map<Id, Slot>, slots': map<Id, Slot>) {
    forall id :: id in slots ==>
      id in slots' && slots'[id].prefix == slots[id].prefix &&
          IdentityOf(slots'[id].channel) == IdentityOf(slots[id].channel)
  }

  lemma OneGenuine(slots: map<Id, Slot>, id: Id, k: Slot)
    requires AllGenuine(slots) && id in slots && Holds(IdentityOf(slots[id].channel), k) && k.prefix == slots[id].prefix
    ensures AllGenuine(slots[id := k]) && SameOnes(slots, slots[id := k])
  {
  }

  lemma NextGenuine(s: Sys, step: Step)
    requires AllGenuine(s.slots)
    ensures AllGenuine(Next(s, step).slots) && SameOnes(s.slots, Next(s, step).slots)
  {
    if step.CreateCommit? {
      CommitGenuine(s, step.tid, step.id, step.admitted, step.saveOk, step.now);
    } else if step.ShutdownStart? {
      CloseGenuine(s, step.order);
    } else if OneSlot(step) {
      OneSlotGenuine(s, step);
    } else {
      NoSlotMoves(s, step);
    }
  }

  /** The step is about one allocation. */
  predicate OneSlot(step: Step) {
    step.Drive? || step.Extra? || step.Spawn? || step.Land? || step.Cancel?
  }

  lemma OneSlotGenuine(s: Sys, step: Step)
    requires AllGenuine(s.slots) && OneSlot(step)
    ensures AllGenuine(Next(s, step).slots) && SameOnes(s.slots, Next(s, step).slots)
  {
    match step
    case Drive(id, e) => DriveGenuine(s, id, e);
    case Extra(id, tid, ok) => BesideGenuine(s, id, tid, ok);
    case Spawn(id, tid, c, now) => SpawnGenuine(s, id, tid, c, now);
    case Land(id, n) => LandGenuine(s, id, n);
    case Cancel(id) => CancelGenuine(s, id);
  }

  lemma NoSlotMoves(s: Sys, step: Step)
    requires !OneSlot(step) && !step.CreateCommit? && !step.ShutdownStart?
    ensures Next(s, step).slots == s.slots
  {
  }

  lemma DriveGenuine(s: Sys, id: Id, e: Event)
    requires AllGenuine(s.slots)
    ensures AllGenuine(DriveStep(s, id, e).slots) && SameOnes(s.slots, DriveStep(s, id, e).slots)
  {
    if id in s.slots && s.slots[id].driver.Some? {
      var bounded := !s.shutdown.NotStarted?;
      assert Genuine(id, s.slots[id]);
      DrivenHolds(IdentityOf(s.slots[id].channel), s.slots[id], e, bounded);
      OneGenuine(s.slots, id, Driven(s.slots[id], e, bounded));
    }
  }

  lemma BesideGenuine(s: Sys, id: Id, tid: nat, ok: bool)
    requires AllGenuine(s.slots)
    ensures AllGenuine(BesideStep(s, id, tid, ok).slots) && SameOnes(s.slots, BesideStep(s, id, tid, ok).slots)
  {
    if id in s.slots && tid in s.slots[id].extras {
      assert Genuine(id, s.slots[id]);
      ExtraHolds(IdentityOf(s.slots[id].channel), s.slots[id], tid, ok);
      OneGenuine(s.slots, id, ExtraStep(s.slots[id], tid, ok));
    }
  }

  lemma SpawnGenuine(s: Sys, id: Id, tid: nat, c: Change, now: nat)
    requires AllGenuine(s.slots)
    ensures AllGenuine(SpawnStep(s, id, tid, c, now).slots) && SameOnes(s.slots, SpawnStep(s, id, tid, c, now).slots)
  {
    if id in s.slots {
      assert Genuine(id, s.slots[id]);
      SpawnHolds(IdentityOf(s.slots[id].channel), s.slots[id], tid, c, now);
      OneGenuine(s.slots, id, Spawned(s.slots[id], tid, c, now));
    }
  }

  lemma LandedHolds(i: Identity, k: Slot, n: nat)
    requires Holds(i, k) && n < |k.adrift|
    ensures Holds(i, Landed(k, n)) && Landed(k, n).prefix == k.prefix
  {
    var rest := k.adrift[..n] + k.adrift[n + 1..];
    forall m | 0 <= m < |rest| ensures IdentityOf(rest[m]) == i {
      assert rest[m] == k.adrift[if m < n then m else m + 1];
    }
  }

  lemma LandGenuine(s: Sys, id: Id, n: nat)
    requires AllGenuine(s.slots)
    ensures AllGenuine(LandStep(s, id, n).slots) && SameOnes(s.slots, LandStep(s, id, n).slots)
  {
    if id in s.slots && n < |s.slots[id].adrift| {
      assert Genuine(id, s.slots[id]);
      LandedHolds(IdentityOf(s.slots[id].channel), s.slots[id], n);
      OneGenuine(s.slots, id, Landed(s.slots[id], n));
    }
  }

  lemma CancelGenuine(s: Sys, id: Id)
    requires AllGenuine(s.slots)
    ensures AllGenuine(CancelStep(s, id).slots) && SameOnes(s.slots, CancelStep(s, id).slots)
  {
    if id in s.slots {
      assert Genuine(id, s.slots[id]);
      CancelHolds(IdentityOf(s.slots[id].channel), s.slots[id]);
      OneGenuine(s.slots, id, CancelSlot(s.slots[id]));
    }
  }

  lemma CancelHolds(i: Identity, k: Slot)
    requires Holds(i, k)
    ensures Holds(i, CancelSlot(k)) && CancelSlot(k).prefix == k.prefix
  {
    OwnerMovedHolds(i, k, CancelSlot(k));
  }

  lemma CloseGenuine(s: Sys, order: seq<Id>)
    requires AllGenuine(s.slots)
    ensures AllGenuine(Close(s, order).slots) && SameOnes(s.slots, Close(s, order).slots)
  {
    SignalledGenuine(s.slots, order);
  }

  lemma SignalledGenuine(slots: map<Id, Slot>, order: seq<Id>)
    requires AllGenuine(slots)
    ensures AllGenuine(Signalled(slots, order)) && SameOnes(slots, Signalled(slots, order))
  {
    forall id | id in slots ensures Genuine(id, slots[id].(cancelled := true)) {
      assert Genuine(id, slots[id]);
      SignalGenuine(id, slots[id]);
    }
  }

  lemma SignalGenuine(id: Id, k: Slot)
    requires Genuine(id, k)
    ensures Genuine(id, k.(cancelled := true))
  {
  }

  /** `create` inserts at most one entry, and only while admission is open and no live allocation has
      the same attempt; of the others it changes none but finished ones, which it may drop. */
  lemma CommitKeys(s: Sys, tid: nat, id: Id, admitted: bool, saveOk: bool, now: nat)
    ensures var s' := Commit(s, tid, id, admitted, saveOk, now);
            s'.slots == s.slots ||
            (tid in s.creates && s'.slots.Keys == s.slots.Keys + {id} && id !in s.slots && s.shutdown.NotStarted? &&
             !HasPredecessor(s.slots, s.creates[tid].request) && Live(s'.slots[id]) &&
             VmNames.VmName(s.creates[tid].config.prefix, s.creates[tid].request).Some? &&
             s'.slots[id] == NewSlot(id, s.creates[tid].request, s.creates[tid].config.prefix, now) &&
             forall i :: i in s.slots ==>
               s'.slots[i] == s.slots[i] || (!Live(s.slots[i]) && s'.slots[i] == s.slots[i].(entry := None)))
  {
    if tid in s.creates && Commit(s, tid, id, admitted, saveOk, now).slots != s.slots {
      var p := s.creates[tid];
      var k := NewSlot(id, p.request, p.config.prefix, now);
      assert Live(k);
      TrimmedOnlyFinished(s.slots[id := k], s.limit);
    }
  }

  /** And it does insert one unless it has a reason not to: admission closed or refused, no valid name, a
      failed save, an id in use, or a live allocation whose request agrees in repository, run, attempt
      and profile. */
  lemma CommitInserts(s: Sys, tid: nat, id: Id, admitted: bool, saveOk: bool, now: nat)
    requires tid in s.creates
    ensures var r := s.creates[tid].request;
            id !in s.slots && id in Commit(s, tid, id, admitted, saveOk, now).slots <==>
              && id !in s.slots && s.shutdown.NotStarted? && admitted && saveOk
              && VmNames.VmName(s.creates[tid].config.prefix, r).Some?
              && forall i :: i in s.slots && Live(s.slots[i]) ==>
                   var o := s.slots[i].entry.value.allocation.request;
                   !(o.repository == r.repository && o.runId == r.runId && o.runAttempt == r.runAttempt &&
                     o.profile == r.profile)
    ensures id !in s.slots && id in Commit(s, tid, id, admitted, saveOk, now).slots ==>
              var k := Commit(s, tid, id, admitted, saveOk, now).slots[id];
              && k.entry == Some(Entry(k.channel, true, false)) && k.record == k.channel && !k.cancelled
              && k.channel.id == id && k.channel.request == s.creates[tid].request && k.channel.state.Requested?
              && !k.channel.vmCreated && k.channel.runnerId.None? && k.channel.error.None?
              && k.channel.createdAt == k.channel.updatedAt == now
              && k.driver.Some? && k.driver.value.kind.Worker? && k.driver.value.phase.Working?
  {
    CommitKeys(s, tid, id, admitted, saveOk, now);
    var p := s.creates[tid];
    forall i | i in s.slots && Live(s.slots[i])
      ensures SameAttempt(s.slots[i].entry.value.allocation.request, p.request) <==>
              s.slots[i].entry.value.allocation.request == p.request
    {
      SameAttemptIsEquality(s.slots[i].entry.value.allocation.request, p.request);
    }
  }

  /** What a step can do to an allocation whose owner it does not drive, with no update beside the owner:
      a finished entry is dropped, a token signalled, a claim taken, or an abandoned save lands. */
  predicate Beside(k: Slot, k': Slot) {
    || k' == k
    || (!Live(k) && k' == k.(entry := None))
    || k' == k.(cancelled := true)
    || k' == CancelSlot(k)
    || k' == k.(record := k'.record, saved := k'.saved, adrift := k'.adrift, stranded := k'.stranded)
  }

  lemma OthersBeside(s: Sys, step: Step, id: Id)
    requires id in s.slots && s.slots[id].extras == map[] && !step.Spawn?
    requires !(step.Drive? && step.id == id && s.slots[id].driver.Some?)
    ensures id in Next(s, step).slots && Beside(s.slots[id], Next(s, step).slots[id])
  {
    if step.CreateCommit? {
      CommitKeys(s, step.tid, step.id, step.admitted, step.saveOk, step.now);
    } else if step.ShutdownStart? {
      assert id in Close(s, step.order).slots;
    }
  }

  lemma CommitGenuine(s: Sys, tid: nat, id: Id, admitted: bool, saveOk: bool, now: nat)
    requires AllGenuine(s.slots)
    ensures var s' := Commit(s, tid, id, admitted, saveOk, now); AllGenuine(s'.slots) && SameOnes(s.slots, s'.slots)
  {
    var s' := Commit(s, tid, id, admitted, saveOk, now);
    CommitKeys(s, tid, id, admitted, saveOk, now);
    if s'.slots != s.slots {
      NewGenuine(id, s.creates[tid].request, s.creates[tid].config.prefix, now);
      forall i | i in s.slots ensures Genuine(i, s'.slots[i]) {
        assert Genuine(i, s.slots[i]);
        PrunedGenuine(i, s.slots[i]);
      }
    }
  }

  lemma PrunedGenuine(id: Id, k: Slot)
    requires Genuine(id, k)
    ensures Genuine(id, k.(entry := None))
  {
  }

  lemma NewGenuine(id: Id, r: Request, prefix: string, now: nat)
    ensures Genuine(id, NewSlot(id, r, prefix, now))
  {
  }

  /** In every run, overlapping updates included, entry, channel, store and every value in flight of an
      id belong to the one allocation created under it, named after the prefix read for it. */
  lemma {:induction false} RunGenuine(config: Config, limit: nat, steps: seq<Step>)
    ensures AllGenuine(Run(Start(config, limit), steps).slots)
  {
    if steps != [] {
      RunGenuine(config, limit, steps[..|steps| - 1]);
      NextGenuine(Run(Start(config, limit), steps[..|steps| - 1]), steps[|steps| - 1]);
    }
  }

  // ---------------------------------------------------------------- machine names

  /** In every run, whatever it reloads and when, two resident allocations share a machine name exactly
      when run and attempt agree and prefix and profile, as they were when each was requested, spell
      the same text. */
  lemma SharedMachineExactly(config: Config, limit: nat, steps: seq<Step>, i: Id, j: Id)
    requires var slots := Run(Start(config, limit), steps).slots;
             i in slots && j in slots && slots[i].entry.Some? && slots[j].entry.Some?
    ensures var slots := Run(Start(config, limit), steps).slots;
            var a, b := slots[i].entry.value.allocation, slots[j].entry.value.allocation;
            a.vmName == b.vmName <==>
            slots[i].prefix + a.request.profile == slots[j].prefix + b.request.profile &&
            a.request.runId == b.request.runId && a.request.runAttempt == b.request.runAttempt
  {
    RunGenuine(config, limit, steps);
    var slots := Run(Start(config, limit), steps).slots;
    assert Genuine(i, slots[i]) && Genuine(j, slots[j]);
    VmNames.SharedVmName(slots[i].prefix, slots[i].channel.request, slots[j].prefix, slots[j].channel.request);
  }

  // ---------------------------------------------------------------- one live allocation per attempt

  /** Two live allocations of one run attempt. */
  predicate Rivals(k: Slot, l: Slot) {
    Live(k) && Live(l) && SameAttempt(k.entry.value.allocation.request, l.entry.value.allocation.request)
  }

  ghost predicate Unique(slots: map<Id, Slot>) {
    forall i, j :: i in slots && j in slots && Rivals(slots[i], slots[j]) ==> i == j
  }

  /** The step publishes a value: under which id, and which value. */
  function Publishing(s: Sys, step: Step): Option<(Id, Allocation)> {
    match step
    case Drive(id, Proceed(_)) =>
      if id in s.slots && s.slots[id].driver.Some? && s.slots[id].driver.value.update.Saved? && s.slots[id].entry.Some?
      then Some((id, s.slots[id].driver.value.update.value)) else None
    case Extra(id, tid, _) =>
      if id in s.slots && tid in s.slots[id].extras && s.slots[id].extras[tid].Saved? && s.slots[id].entry.Some?
      then Some((id, s.slots[id].extras[tid].value)) else None
    case _ => None
  }

  /** It publishes an unfinished value over a finished entry while the attempt has a live allocation. */
  ghost predicate Revives(s: Sys, step: Step) {
    var p := Publishing(s, step);
    p.Some? && p.value.0 in s.slots && !Terminal(p.value.1) && !Live(s.slots[p.value.0]) &&
        HasPredecessor(s.slots, p.value.1.request)
  }

  /** Live before and after, for the same request, or neither. */
  predicate AsLive(k: Slot, k': Slot) {
    (Live(k) <==> Live(k')) && (Live(k) ==> k'.entry.value.allocation.request == k.entry.value.allocation.request)
  }

  lemma UniqueAsLive(slots: map<Id, Slot>, slots': map<Id, Slot>)
    requires slots'.Keys == slots.Keys && forall id :: id in slots ==> AsLive(slots[id], slots'[id])
    ensures Unique(slots) <==> Unique(slots')
  {
    forall i, j | i in slots && j in slots ensures Rivals(slots[i], slots[j]) <==> Rivals(slots'[i], slots'[j]) {
      assert AsLive(slots[i], slots'[i]) && AsLive(slots[j], slots'[j]);
    }
  }

  lemma OwnerAsLive(k: Slot, e: Event, bounded: bool)
    requires k.driver.Some? && !(k.driver.value.update.Saved? && k.entry.Some? && e.Proceed?)
    ensures AsLive(k, Driven(k, e, bounded))
  {
    var d := k.driver.value;
    if d.update.Idle? && !(e.Abort? && MayAbort(d)) {
      ResumedAsLive(k, d, e, bounded);
    }
  }

  lemma ResumedAsLive(k: Slot, d: Driver, e: Event, bounded: bool)
    ensures AsLive(k, Resumed(k, d, e, bounded))
  {
  }

  /** Every step but a publication and a creation leaves the live allocations as they are. */
  lemma NextAsLive(s: Sys, step: Step)
    requires Publishing(s, step).None? && !step.CreateCommit?
    ensures Next(s, step).slots.Keys == s.slots.Keys
    ensures forall id :: id in s.slots ==> AsLive(s.slots[id], Next(s, step).slots[id])
  {
    match step
    case Drive(id, e) =>
      if id in s.slots && s.slots[id].driver.Some? {
        OwnerAsLive(s.slots[id], e, !s.shutdown.NotStarted?);
      }
    case _ =>
  }

  /** A publication changes one entry to its value. */
  lemma NextPublishes(s: Sys, step: Step)
    requires Publishing(s, step).Some?
    ensures var (id, v) := Publishing(s, step).value;
            && id in s.slots && Next(s, step).slots == s.slots[id := Next(s, step).slots[id]]
            && Next(s, step).slots[id].entry == Some(s.slots[id].entry.value.(allocation := v))
  {
  }

  /** From every state and over every step, a finished entry becomes live exactly when the step publishes,
      for the owner or beside it, an unfinished value over it. */
  lemma RevivedExactly(s: Sys, step: Step, id: Id)
    requires id in s.slots && s.slots[id].entry.Some? && !Live(s.slots[id])
    ensures id in Next(s, step).slots
    ensures Live(Next(s, step).slots[id]) <==>
            Publishing(s, step).Some? && Publishing(s, step).value.0 == id && !Terminal(Publishing(s, step).value.1)
  {
    if step.CreateCommit? {
      CommitKeys(s, step.tid, step.id, step.admitted, step.saveOk, step.now);
    } else if Publishing(s, step).None? {
      NextAsLive(s, step);
      assert AsLive(s.slots[id], Next(s, step).slots[id]);
    } else {
      NextPublishes(s, step);
    }
  }

  lemma UniqueRevived(slots: map<Id, Slot>, id: Id, k: Slot)
    requires Unique(slots) && id in slots && slots[id].entry.Some? && k.entry.Some?
    requires k.entry.value.allocation.request == slots[id].entry.value.allocation.request
    ensures Unique(slots[id := k]) <==>
            !Live(k) || Live(slots[id]) || !HasPredecessor(slots, k.entry.value.allocation.request)
  {
    var slots' := slots[id := k];
    var r := k.entry.value.allocation.request;
    if Live(k) && !Live(slots[id]) && HasPredecessor(slots, r) {
      var j :| j in slots && Live(slots[j]) && SameAttempt(slots[j].entry.value.allocation.request, r);
      assert Rivals(slots'[j], slots'[id]) && j != id;
    } else if Live(k) && Live(slots[id]) {
      forall i, j | i in slots' && j in slots' && Rivals(slots'[i], slots'[j]) ensures i == j {
        assert Rivals(slots[i], slots[j]);
      }
    } else {
      forall i, j | i in slots' && j in slots' && Rivals(slots'[i], slots'[j]) ensures i == j {
        assert i != id && j != id ==> Rivals(slots[i], slots[j]);
      }
    }
  }

  lemma CommitUnique(s: Sys, tid: nat, id: Id, admitted: bool, saveOk: bool, now: nat)
    requires Unique(s.slots)
    ensures Unique(Commit(s, tid, id, admitted, saveOk, now).slots)
  {
    var s' := Commit(s, tid, id, admitted, saveOk, now);
    CommitKeys(s, tid, id, admitted, saveOk, now);
    if s'.slots != s.slots {
      OneMoreUnique(s.slots, s'.slots, id, s.creates[tid].request);
    }
  }

  lemma OneMoreUnique(slots: map<Id, Slot>, slots': map<Id, Slot>, id: Id, r: Request)
    requires Unique(slots) && slots'.Keys == slots.Keys + {id} && id !in slots
    requires forall i :: i in slots ==> AsLive(slots[i], slots'[i])
    requires !HasPredecessor(slots, r) && Live(slots'[id]) && slots'[id].entry.value.allocation.request == r
    ensures Unique(slots')
  {
    forall i, j | i in slots' && j in slots' && Rivals(slots'[i], slots'[j]) ensures i == j {
      assert i != id ==> AsLive(slots[i], slots'[i]);
      assert j != id ==> AsLive(slots[j], slots'[j]);
      if i != id && j != id {
        assert Rivals(slots[i], slots[j]);
      }
    }
  }

  /** From every state of every run in which each attempt has at most one live allocation, a step ends
      that exactly when it publishes, for the owner or beside it, an unfinished value over a finished
      entry while the attempt has a live allocation. */
  lemma UniqueLostExactly(config: Config, limit: nat, steps: seq<Step>, step: Step)
    requires Unique(Run(Start(config, limit), steps).slots)
    ensures var s := Run(Start(config, limit), steps);
            Unique(Next(s, step).slots) <==> !Revives(s, step)
  {
    var s := Run(Start(config, limit), steps);
    RunGenuine(config, limit, steps);
    NextUniqueExactly(s, step);
  }

  lemma NextUniqueExactly(s: Sys, step: Step)
    requires AllGenuine(s.slots) && Unique(s.slots)
    ensures Unique(Next(s, step).slots) <==> !Revives(s, step)
  {
    if step.CreateCommit? {
      CommitUnique(s, step.tid, step.id, step.admitted, step.saveOk, step.now);
    } else if Publishing(s, step).None? {
      NextAsLive(s, step);
      UniqueAsLive(s.slots, Next(s, step).slots);
    } else {
      var (id, v) := Publishing(s, step).value;
      NextPublishes(s, step);
      assert Genuine(id, s.slots[id]);
      PublishesOwn(s, step);
      UniqueRevived(s.slots, id, Next(s, step).slots[id]);
    }
  }

  /** What is published is a value of that allocation. */
  lemma PublishesOwn(s: Sys, step: Step)
    requires AllGenuine(s.slots) && Publishing(s, step).Some?
    ensures var (id, v) := Publishing(s, step).value;
            id in s.slots && s.slots[id].entry.Some? && v.request == s.slots[id].entry.value.allocation.request
  {
    var (id, v) := Publishing(s, step).value;
    assert Genuine(id, s.slots[id]);
    if step.Extra? {
      assert UpdateOf(IdentityOf(s.slots[id].channel), s.slots[id].extras[step.tid]);
    }
  }
}
