/** The allocation record and its lifecycle: crates/flanforge-core/src/allocation. */
module Allocations {
  import opened Base

  /** A UUID. Its hyphenated text has a fixed width, so the order of the texts is the order
      of the 128-bit values. */
  type Id = nat

  datatype AllocationState =
    | Requested | Preparing | Booting | Registering | WaitingForJob | Ready | Running
    | Cleaning | Completed | Failed | Cancelled

  predicate IsTerminal(s: AllocationState) {
    s.Completed? || s.Failed? || s.Cancelled?
  }

  predicate CanTransition(from: AllocationState, to: AllocationState) {
    from == to ||
    match from
    case Requested => to.Preparing? || to.Cleaning?
    case Preparing => to.Booting? || to.Registering? || to.Cleaning?
    case Booting => to.Registering? || to.Cleaning?
    case Registering => to.WaitingForJob? || to.Cleaning?
    case WaitingForJob => to.Ready? || to.Running? || to.Cleaning?
    case Ready => to.Running? || to.Cleaning?
    case Running => to.Cleaning?
    case Cleaning => IsTerminal(to)
    case _ => false
  }

  /** How far along its lifecycle a state is; the three terminal states share the last place. */
  function Rank(s: AllocationState): (r: nat)
    ensures r <= 8
    ensures r == 8 <==> IsTerminal(s)
  {
    match s
    case Requested => 0
    case Preparing => 1
    case Booting => 2
    case Registering => 3
    case WaitingForJob => 4
    case Ready => 5
    case Running => 6
    case Cleaning => 7
    case _ => 8
  }

  datatype Request = Request(profile: string, repository: string, runId: nat, runAttempt: nat)

  predicate SameAttempt(a: Request, b: Request) {
    a.repository == b.repository && a.runId == b.runId && a.runAttempt == b.runAttempt && a.profile == b.profile
  }

  /** The error text on a record, by what wrote it. */
  datatype Fault = WorkerStopped | CleanupExhausted | OtherFault(text: string)

  datatype Allocation = Allocation(
    id: Id,
    request: Request,
    state: AllocationState,
    vmName: string,
    vmCreated: bool,
    runnerId: Option<int>,
    createdAt: nat,
    updatedAt: nat,
    error: Option<Fault>)

  predicate Terminal(a: Allocation) {
    IsTerminal(a.state)
  }

  function NewAllocation(id: Id, request: Request, vmName: string, now: nat): Allocation {
    Allocation(id, request, Requested, vmName, false, None, now, now, None)
  }

  /** The edits `update` is called with. */
  datatype Change =
    | ToState(state: AllocationState)
    | SetRunnerId(runnerId: int)
    | SetVmCreated
    | SetError(error: Fault)

  /** What one edit makes of a record; a refused transition fails, and a runner id that cannot be one. */
  function Applied(a: Allocation, c: Change, now: nat): Option<Allocation> {
    match c
    case ToState(s) => if CanTransition(a.state, s) then Some(a.(state := s, updatedAt := now)) else None
    case SetRunnerId(r) => if r > 0 then Some(a.(runnerId := Some(r), updatedAt := now)) else None
    case SetVmCreated => Some(a.(vmCreated := true, updatedAt := now))
    case SetError(e) => Some(a.(error := Some(e), updatedAt := now))
  }

  /** The same allocation, possibly further along its lifecycle. */
  predicate Advances(a: Allocation, b: Allocation) {
    a.id == b.id && a.request == b.request && a.vmName == b.vmName && a.createdAt == b.createdAt &&
    Rank(a.state) <= Rank(b.state) && (Terminal(a) ==> a.state == b.state)
  }

  /** Two requests are the same attempt exactly when nothing tells them apart. */
  lemma SameAttemptIsEquality(a: Request, b: Request)
    ensures SameAttempt(a, b) <==> a == b
  {
  }

  /** Transitions only move forward, a terminal state is left by none of them, and teardown can
      always be entered from unfinished work. A step goes one place on or into Cleaning; a claimed
      machine is past booting, and a job may be running before anybody saw the runner ready. */
  lemma LifecycleIsMonotone(a: AllocationState, b: AllocationState)
    ensures CanTransition(a, b) ==> a == b || Rank(a) < Rank(b)
    ensures IsTerminal(a) ==> (CanTransition(a, b) <==> a == b)
    ensures !IsTerminal(a) ==> CanTransition(a, Cleaning)
    ensures IsTerminal(b) && a != b ==> (CanTransition(a, b) <==> a == Cleaning)
    ensures CanTransition(a, b) <==>
            || a == b || Rank(b) == Rank(a) + 1 || (b == Cleaning && Rank(a) < 7)
            || (a == Preparing && b == Registering) || (a == WaitingForJob && b == Running)
  {
  }

  /** An edit keeps the identity and moves the record forward; it is refused only for the transition or
      the runner id it asks for, and what it sets, the time included, is all that changes. */
  lemma AppliedAdvances(a: Allocation, c: Change, now: nat)
    ensures Applied(a, c, now).None? <==>
            (c.ToState? && !CanTransition(a.state, c.state)) || (c.SetRunnerId? && c.runnerId <= 0)
    ensures Applied(a, c, now).Some? ==> Advances(a, Applied(a, c, now).value)
    ensures Applied(a, c, now).Some? ==>
              var b := Applied(a, c, now).value;
              && b.updatedAt == now
              && b.state == (if c.ToState? then c.state else a.state)
              && b.runnerId == (if c.SetRunnerId? then Some(c.runnerId) else a.runnerId)
              && b.vmCreated == (c.SetVmCreated? || a.vmCreated)
              && b.error == (if c.SetError? then Some(c.error) else a.error)
  {
    if c.ToState? {
      LifecycleIsMonotone(a.state, c.state);
    }
  }
}
