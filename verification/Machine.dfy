/** The allocation manager as a state machine at lock granularity: requests, workers, operator
    cancels and one shutdown interleave freely, and stores and cleanups fail freely.
    crates/flanforge-manager/src: service.rs, state.rs, lifecycle.rs, teardown.rs, shutdown.rs. */
module Machine {
  import opened Base
  import opened Allocations
  import VmNames
  import History

  /** The part of the configuration admission reads: each profile pins one repository. */
  datatype Config = Config(prefix: string, profiles: map<string, string>)

  datatype Entry = Entry(allocation: Allocation, supervised: bool, terminalizing: bool)

  /** Where one `update` stands: the value is computed, is in the store, or is in the entry but
      not yet in the watch channel. */
  datatype Update = Idle | Loaded(value: Allocation) | Saved(value: Allocation) | Published(value: Allocation)

  datatype Kind = Worker | Operator

  /** The program counter of an allocation's owner. */
  datatype Phase =
    | Working                                       // the backend's run, reporting as it goes
    | NotingExit                                    // set_worker_error
    | Deciding(ok: bool)                            // finish_worker picks the requested state
    | Checking(want: AllocationState)               // ensure_cleaning before cleanup: read
    | Entering(want: AllocationState)               // ensure_cleaning before cleanup: transition
    | Refreshing(want: AllocationState)             // re-read, or fall back to the snapshot
    | Budgeting(want: AllocationState, current: Allocation)
    | Attempting(want: AllocationState, current: Allocation, bounded: bool, left: nat)
    | Leaking(current: Allocation)                  // record_leak
    | Rechecking                                    // read after exhausted cleanup
    | NotingFailure                                 // set_error
    | CheckingAgain(final: AllocationState)         // ensure_cleaning after cleanup: read
    | EnteringAgain(final: AllocationState)         // ensure_cleaning after cleanup: transition
    | Finishing(final: AllocationState)             // last read
    | Closing(final: AllocationState)               // the terminal transition
    | Releasing                                     // give up supervision

  datatype Driver = Driver(kind: Kind, phase: Phase, update: Update, fallback: Allocation)

  /** Everything about one allocation id. `entry` is its place in the manager's map and is None
      once pruned; the channel, the store row and the owner outlive it. `saved` collects every value
      ever written to the store, `extras` are updates issued beside the owner, `adrift` are
      saves whose owner was dropped and which may still land, `stranded` is a value such a drop left in
      the store alone, and `prefix` is the one `create` read. */
  datatype Slot = Slot(
    entry: Option<Entry>,
    channel: Allocation,
    record: Allocation,
    saved: set<Allocation>,
    driver: Option<Driver>,
    extras: map<nat, Update>,
    cancelled: bool,
    cleaned: bool,
    failed: bool,
    adrift: seq<Allocation>,
    stranded: Option<Allocation>,
    prefix: string)

  datatype LeakReason = CleanupFailed | NotTerminal

  datatype Leak = Leak(id: Id, state: AllocationState, repository: string, vmName: string, vmCreated: bool,
                       runnerId: Option<int>, reason: LeakReason)

  function LeakOf(a: Allocation, reason: LeakReason): Leak {
    Leak(a.id, a.state, a.request.repository, a.vmName, a.vmCreated, a.runnerId, reason)
  }

  datatype Shutdown =
    | NotStarted
    | Waiting(awaited: seq<Id>, next: nat)
    | Taking(awaited: seq<Id>, complete: bool)
    | Collecting(awaited: seq<Id>, complete: bool, taken: seq<Leak>)
    | Reported(awaited: seq<Id>, complete: bool, report: seq<Leak>)

  /** A request that passed authorization against the configuration it read. */
  datatype Pending = Pending(request: Request, config: Config)

  datatype Sys = Sys(
    config: Config,
    limit: nat,
    creates: map<nat, Pending>,
    slots: map<Id, Slot>,
    leaked: seq<Leak>,
    shutdown: Shutdown)

  function Start(config: Config, limit: nat): Sys {
    Sys(config, limit, map[], map[], [], NotStarted)
  }

  datatype Event =
    | Report(change: Change, at: nat)   // the worker reports progress
    | Exit(ok: bool)                    // the worker returns
    | Abort                             // the owner is dropped, perhaps inside a save
    | SaveDone(ok: bool)
    | CleanupDone(ok: bool)
    | Proceed(now: nat)                 // the owner takes its next step

  datatype Step =
    | Reload(config: Config)
    | CreateBegin(tid: nat, request: Request)
    | CreateCommit(tid: nat, id: Id, admitted: bool, saveOk: bool, now: nat)
    | Cancel(id: Id)
    | Drive(id: Id, event: Event)
    | Spawn(id: Id, tid: nat, change: Change, now: nat)
    | Extra(id: Id, tid: nat, ok: bool)
    | Land(id: Id, n: nat)              // a save whose owner was dropped reaches the store
    | ShutdownStart(order: seq<Id>)
    | ShutdownObserve
    | ShutdownWaitEnd
    | ShutdownTake
    | ShutdownCollect

  // ---------------------------------------------------------------- the owner

  predicate Live(k: Slot) {
    k.entry.Some? && !Terminal(k.entry.value.allocation)
  }

  /** Where the owner goes once its update ends; only the second `ensure_cleaning` and the terminal
      transition let an error end the teardown. */
  function After(d: Driver, ok: bool): Driver {
    d.(update := Idle, phase :=
      match d.phase
      case NotingExit => Deciding(false)
      case Entering(w) => Refreshing(w)
      case NotingFailure => CheckingAgain(Failed)
      case EnteringAgain(f) => if ok then Finishing(f) else Releasing
      case Closing(_) => Releasing
      case p => p)
  }

  function At(k: Slot, d: Driver): Slot {
    k.(driver := Some(d))
  }

  /** The first locked section of `update`: read, edit the copy. */
  function Load(k: Slot, d: Driver, c: Change, now: nat): Slot {
    if k.entry.Some? && Applied(k.entry.value.allocation, c, now).Some?
    then At(k, d.(update := Loaded(Applied(k.entry.value.allocation, c, now).value)))
    else At(k, After(d, false))
  }

  /** The unlocked save of `update`. */
  function Save(k: Slot, v: Allocation): Slot {
    k.(record := v, saved := k.saved + {v})
  }

  /** The worker only ever reports progress; terminal states belong to teardown. */
  predicate Reportable(c: Change) {
    c.ToState? ==> !IsTerminal(c.state)
  }

  /** One step of the owner; `bounded` says whether a shutdown deadline is set. */
  function Driven(k: Slot, e: Event, bounded: bool): Slot
    requires k.driver.Some?
  {
    var d := k.driver.value;
    if e.Abort? && MayAbort(d) then Aborted(k, d)
    else if d.update.Idle? then Resumed(k, d, e, bounded)
    else if d.update.Loaded? && e.SaveDone? then SaveReturned(k, d, d.update.value, e.ok)
    else if d.update.Saved? && e.Proceed? then Publish(k, d, d.update.value)
    else if d.update.Published? && e.Proceed? then Send(k, d, d.update.value)
    else k
  }

  /** A worker can unwind while its backend runs; an operator's request can be dropped at any await.
      There is none between publishing and sending. */
  predicate MayAbort(d: Driver) {
    !d.update.Published? && (d.phase.Working? || d.kind.Operator?)
  }

  function SaveReturned(k: Slot, d: Driver, v: Allocation, ok: bool): Slot {
    if ok then At(Save(k, v).(stranded := None), d.(update := Saved(v))) else At(k, After(d, false))
  }

  /** The second locked section of `update`; a pruned entry is an error. */
  function Publish(k: Slot, d: Driver, v: Allocation): Slot {
    if k.entry.None? then At(k, After(d, false))
    else At(k.(entry := Some(k.entry.value.(allocation := v))), d.(update := Published(v)))
  }

  /** `send_replace`, after the lock is released. */
  function Send(k: Slot, d: Driver, v: Allocation): Slot {
    At(k.(channel := v), After(d, true))
  }

  /** A dropped owner abandons its update. A save it was waiting for may still land, at any time; one that
      was done stays in the store alone. A worker's guard takes over from there, an operator's claim on
      the entry stays. */
  function Aborted(k: Slot, d: Driver): Slot {
    k.(adrift := if d.update.Loaded? then k.adrift + [d.update.value] else k.adrift,
       stranded := if d.update.Saved? then Some(k.record) else k.stranded,
       driver := if d.kind.Worker? then Some(d.(update := Idle, phase := NotingExit)) else None)
  }

  /** An abandoned save lands. */
  function Landed(k: Slot, n: nat): Slot
    requires n < |k.adrift|
  {
    Save(k, k.adrift[n]).(adrift := k.adrift[..n] + k.adrift[n + 1..], stranded := Some(k.adrift[n]))
  }

  /** The phases whose next step opens an update, and the edit each one makes. */
  predicate Writes(p: Phase) {
    p.NotingExit? || p.Entering? || p.NotingFailure? || p.EnteringAgain? || p.Closing?
  }

  function ChangeFor(p: Phase): Change
    requires Writes(p)
  {
    match p
    case NotingExit => SetError(WorkerStopped)
    case NotingFailure => SetError(CleanupExhausted)
    case Closing(f) => ToState(f)
    case _ => ToState(Cleaning)
  }

  function Resumed(k: Slot, d: Driver, e: Event, bounded: bool): Slot {
    if d.phase.Working? && e.Report? && Reportable(e.change) then Load(k, d, e.change, e.at)
    else if Writes(d.phase) && e.Proceed? then Load(k, d, ChangeFor(d.phase), e.now)
    else if d.phase.Releasing? && e.Proceed? then Released(k, d)
    else Advanced(k, d, e, Moved(k, d, e, bounded))
  }

  /** The task goes on to phase `p`; a cleanup attempt that just ended leaves its mark. */
  function Advanced(k: Slot, d: Driver, e: Event, p: Phase): Slot {
    var spent := d.phase.Attempting? && e.CleanupDone?;
    k.(driver := Some(d.(phase := p)),
       cleaned := k.cleaned || (spent && e.ok),
       failed := k.failed || (spent && !e.ok && d.phase.left <= 1 && d.phase.bounded))
  }

  /** The branches of teardown, between its updates. */
  function Moved(k: Slot, d: Driver, e: Event, bounded: bool): Phase {
    match d.phase
    case Working => if !e.Exit? then Working else if e.ok then Deciding(true) else NotingExit
    case Attempting(w, current, b, left) =>
      if !e.CleanupDone? then d.phase
      else if e.ok then CheckingAgain(w)
      else if left > 1 then Attempting(w, current, b, left - 1)
      else if b then Leaking(current)
      else Rechecking
    case p => if e.Proceed? then Proceeded(k, d, bounded) else p
  }

  function Proceeded(k: Slot, d: Driver, bounded: bool): Phase {
    match d.phase
    case Deciding(ok) => Checking(if k.cancelled then Cancelled else if ok then Completed else Failed)
    case Checking(w) => if k.entry.Some? && NeedsCleaning(k.entry.value) then Entering(w) else Refreshing(w)
    case Refreshing(w) =>
      var current := if k.entry.Some? then k.entry.value.allocation else d.fallback;
      if Terminal(current) then Releasing else Budgeting(w, current)
    case Budgeting(w, current) => Attempting(w, current, bounded, if bounded then 1 else 3)
    case Leaking(_) => Rechecking
    case Rechecking => if k.entry.Some? && !Live(k) then Releasing else NotingFailure
    case CheckingAgain(f) =>
      if k.entry.None? then Releasing else if NeedsCleaning(k.entry.value) then EnteringAgain(f) else Finishing(f)
    case Finishing(f) => if Live(k) then Closing(f) else Releasing
    case p => p
  }

  predicate NeedsCleaning(e: Entry) {
    !e.allocation.state.Cleaning? && !Terminal(e.allocation)
  }

  /** `release_supervision`, or the end of an operator's cancel. */
  function Released(k: Slot, d: Driver): Slot {
    var k' := k.(driver := None);
    if k.entry.None? then k'
    else if d.kind.Worker? then k'.(entry := Some(k.entry.value.(supervised := false)))
    else k'.(entry := Some(k.entry.value.(terminalizing := false)))
  }

  // ---------------------------------------------------------------- updates beside the owner

  function Spawned(k: Slot, tid: nat, c: Change, now: nat): Slot {
    if tid in k.extras || k.entry.None? || Applied(k.entry.value.allocation, c, now).None? then k
    else k.(extras := k.extras[tid := Loaded(Applied(k.entry.value.allocation, c, now).value)])
  }

  function ExtraStep(k: Slot, tid: nat, ok: bool): Slot
    requires tid in k.extras
  {
    var rest := k.extras - {tid};
    match k.extras[tid]
    case Loaded(v) => if ok then Save(k, v).(extras := k.extras[tid := Saved(v)]) else k.(extras := rest)
    case Saved(v) =>
      if k.entry.None? then k.(extras := rest)
      else k.(entry := Some(k.entry.value.(allocation := v)), extras := k.extras[tid := Published(v)])
    case Published(v) => k.(channel := v, extras := rest)
    case Idle => k.(extras := rest)
  }

  // ---------------------------------------------------------------- create, cancel

  /** Validation plus `ensure_authorized`: the claims, the request and the profile name one
      repository. */
  predicate Authorized(config: Config, r: Request) {
    VmNames.ValidRequest(r) && r.profile in config.profiles && config.profiles[r.profile] == r.repository
  }

  /** A live allocation for the same attempt, which `create` returns instead of a new one. */
  ghost predicate HasPredecessor(slots: map<Id, Slot>, r: Request) {
    exists id :: id in slots && Live(slots[id]) && SameAttempt(slots[id].entry.value.allocation.request, r)
  }

  ghost function Entries(slots: map<Id, Slot>): map<Id, Allocation> {
    map id | id in slots && slots[id].entry.Some? :: slots[id].entry.value.allocation
  }

  ghost function Trimmed(slots: map<Id, Slot>, limit: nat): map<Id, Slot> {
    var m := Entries(slots);
    var kept := History.Kept(m, m.Keys, limit);
    map id | id in slots :: if id in kept then slots[id] else slots[id].(entry := None)
  }

  function FreshSlot(a: Allocation, prefix: string): Slot {
    Slot(Some(Entry(a, true, false)), a, a, {a}, Some(Driver(Worker, Working, Idle, a)), map[], false, false, false,
         [], None, prefix)
  }

  /** The slot of a new record, named after the prefix the request was authorized under. */
  function NewSlot(id: Id, r: Request, prefix: string, now: nat): Slot {
    FreshSlot(NewAllocation(id, r, VmNames.VmText(prefix, r), now), prefix)
  }

  /** The locked section of `create`. A refused, idempotent or unsaved request inserts nothing. */
  ghost function Created(s: Sys, p: Pending, id: Id, admitted: bool, saveOk: bool, now: nat): Sys {
    var name := VmNames.VmName(p.config.prefix, p.request);
    var refused := !s.shutdown.NotStarted? || HasPredecessor(s.slots, p.request) || !admitted || name.None?;
    if refused || !saveOk || id in s.slots then s
    else s.(slots := Trimmed(s.slots[id := NewSlot(id, p.request, p.config.prefix, now)], s.limit))
  }

  /** `cancel_by_id`: signal the token, and drive the teardown from here when nobody listens. */
  function CancelSlot(k: Slot): Slot {
    if !Live(k) then k
    else
      var e := k.entry.value;
      var k' := k.(cancelled := true);
      if e.supervised || e.terminalizing then k'
      else k'.(entry := Some(e.(terminalizing := true)),
               driver := Some(Driver(Operator, Checking(Cancelled), Idle, e.allocation)))
  }

  // ---------------------------------------------------------------- shutdown

  predicate IsAwaited(k: Slot) {
    Live(k) && (k.entry.value.supervised || k.entry.value.terminalizing)
  }

  /** `order` lists exactly the entries the snapshot awaits, each once. */
  ghost predicate Enumerates(order: seq<Id>, slots: map<Id, Slot>) {
    Distinct(order) && forall id :: id in order <==> id in slots && IsAwaited(slots[id])
  }

  predicate HasLeak(leaks: seq<Leak>, id: Id) {
    exists i :: 0 <= i < |leaks| && leaks[i].id == id
  }

  function WithLeak(leaks: seq<Leak>, a: Allocation, reason: LeakReason): seq<Leak> {
    if HasLeak(leaks, a.id) then leaks else leaks + [LeakOf(a, reason)]
  }

  /** `collect_leaks` from its second lock on: what is still unfinished joins the recorded leaks. */
  function Collected(leaks: seq<Leak>, awaited: seq<Id>, entries: map<Id, Allocation>): seq<Leak> {
    if awaited == [] then leaks
    else
      var init, id := awaited[..|awaited| - 1], awaited[|awaited| - 1];
      var so := Collected(leaks, init, entries);
      if !HasLeak(so, id) && Unfinished(entries, id) then so + [LeakOf(entries[id], NotTerminal)] else so
  }

  predicate Unfinished(entries: map<Id, Allocation>, id: Id) {
    id in entries && !Terminal(entries[id])
  }

  // ---------------------------------------------------------------- the whole manager

  /** The unlocked start of `create`: read the configuration, authorize against it. */
  function Begin(s: Sys, tid: nat, r: Request): Sys {
    if tid in s.creates || !Authorized(s.config, r) then s
    else s.(creates := s.creates[tid := Pending(r, s.config)])
  }

  ghost function Commit(s: Sys, tid: nat, id: Id, admitted: bool, saveOk: bool, now: nat): Sys {
    if tid !in s.creates then s
    else Created(s.(creates := s.creates - {tid}), s.creates[tid], id, admitted, saveOk, now)
  }

  function CancelStep(s: Sys, id: Id): Sys {
    if id !in s.slots then s else s.(slots := s.slots[id := CancelSlot(s.slots[id])])
  }

  function DriveStep(s: Sys, id: Id, e: Event): Sys {
    if id !in s.slots || s.slots[id].driver.None? then s
    else s.(slots := s.slots[id := Driven(s.slots[id], e, !s.shutdown.NotStarted?)],
            leaked := LeakedBy(s.leaked, s.slots[id].driver.value, e))
  }

  /** `record_leak`, when that is the step the owner takes. */
  function LeakedBy(leaked: seq<Leak>, d: Driver, e: Event): seq<Leak> {
    if !(e.Proceed? && d.update.Idle? && d.phase.Leaking?) then leaked
    else WithLeak(leaked, d.phase.current, CleanupFailed)
  }

  function SpawnStep(s: Sys, id: Id, tid: nat, c: Change, now: nat): Sys {
    if id !in s.slots then s else s.(slots := s.slots[id := Spawned(s.slots[id], tid, c, now)])
  }

  function BesideStep(s: Sys, id: Id, tid: nat, ok: bool): Sys {
    if id !in s.slots || tid !in s.slots[id].extras then s
    else s.(slots := s.slots[id := ExtraStep(s.slots[id], tid, ok)])
  }

  function LandStep(s: Sys, id: Id, n: nat): Sys {
    if id !in s.slots || n >= |s.slots[id].adrift| then s
    else s.(slots := s.slots[id := Landed(s.slots[id], n)])
  }

  /** The locked section of `shutdown`: close admission, set the deadline, snapshot, signal. */
  ghost function Close(s: Sys, order: seq<Id>): Sys {
    if !s.shutdown.NotStarted? || !Enumerates(order, s.slots) then s
    else s.(shutdown := Waiting(order, 0), slots := Signalled(s.slots, order))
  }

  function Signalled(slots: map<Id, Slot>, order: seq<Id>): map<Id, Slot> {
    map id | id in slots :: if id in order then slots[id].(cancelled := true) else slots[id]
  }

  /** The wait takes the receivers in order and leaves one once it shows a terminal state. */
  function Observe(s: Sys): Sys {
    if s.shutdown.Waiting? && s.shutdown.next < |s.shutdown.awaited| &&
       s.shutdown.awaited[s.shutdown.next] in s.slots &&
       Terminal(s.slots[s.shutdown.awaited[s.shutdown.next]].channel)
    then s.(shutdown := s.shutdown.(next := s.shutdown.next + 1)) else s
  }

  /** The wait ends when every receiver was left, or at any time by the timeout. */
  function WaitEnd(s: Sys): Sys {
    if s.shutdown.Waiting?
    then s.(shutdown := Taking(s.shutdown.awaited, s.shutdown.next == |s.shutdown.awaited|)) else s
  }

  /** `collect_leaks` under its first lock. */
  function Take(s: Sys): Sys {
    if s.shutdown.Taking?
    then s.(shutdown := Collecting(s.shutdown.awaited, s.shutdown.complete, s.leaked), leaked := []) else s
  }

  /** `collect_leaks` under its second lock. */
  ghost function Collect(s: Sys): Sys {
    if s.shutdown.Collecting?
    then s.(shutdown := Reported(s.shutdown.awaited, s.shutdown.complete,
                                 Collected(s.shutdown.taken, s.shutdown.awaited, Entries(s.slots)))) else s
  }

  ghost function Next(s: Sys, step: Step): Sys {
    match step
    case Reload(config) => s.(config := config)
    case CreateBegin(tid, r) => Begin(s, tid, r)
    case CreateCommit(tid, id, admitted, saveOk, now) => Commit(s, tid, id, admitted, saveOk, now)
    case Cancel(id) => CancelStep(s, id)
    case Drive(id, e) => DriveStep(s, id, e)
    case Spawn(id, tid, c, now) => SpawnStep(s, id, tid, c, now)
    case Extra(id, tid, ok) => BesideStep(s, id, tid, ok)
    case Land(id, n) => LandStep(s, id, n)
    case ShutdownStart(order) => Close(s, order)
    case ShutdownObserve => Observe(s)
    case ShutdownWaitEnd => WaitEnd(s)
    case ShutdownTake => Take(s)
    case ShutdownCollect => Collect(s)
  }

  /** A run is any sequence of steps; a step that is not enabled changes nothing. */
  ghost function Run(s: Sys, steps: seq<Step>): Sys {
    if steps == [] then s else Next(Run(s, steps[..|steps| - 1]), steps[|steps| - 1])
  }

  /** Every update of an allocation is issued by the one task that owns it, so no two overlap. */
  predicate Serial(steps: seq<Step>) {
    forall i :: 0 <= i < |steps| ==> !steps[i].Spawn?
  }
}
