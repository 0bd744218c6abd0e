/** Teardown ends: past the worker's return every owner gives its allocation up within a fixed number
    of moves, whatever fails and whatever happens beside it, and is never without a next move. The one
    exception is an operator's cancel that is dropped, which nobody takes up again. */
module MachineProgress {
  import opened Base
  import opened Allocations
  import opened Machine
  import opened MachineSafety
  import opened MachineIdentity
  import opened MachineRuns
  import opened MachineSolo
  import opened MachineOverlap
  import opened MachineShutdown
  import opened MachineTimeout
  import VmNames

  /** Past the worker's return no owner makes more moves than this. */
  const MOST_MOVES := 33

  /** An update is open only in a phase that makes one, and at most three attempts are left. */
  predicate WellPlaced(d: Driver) {
    && (!d.update.Idle? ==> d.phase.Working? || Writes(d.phase))
    && (d.phase.Attempting? ==> d.phase.left <= 3)
  }

  /** The owner's own flag is set, so a cancel does not put another owner in its place. */
  predicate Held(k: Slot) {
    k.driver.Some? ==>
      && WellPlaced(k.driver.value)
      && (k.entry.Some? ==>
         if k.driver.value.kind.Worker? then k.entry.value.supervised else k.entry.value.terminalizing)
  }

  /** The moves a phase has ahead of it, with its own update still to come. */
  function Ahead(p: Phase): nat {
    match p
    case Working => MOST_MOVES
    case NotingExit => 33
    case Deciding(_) => 29
    case Checking(_) => 28
    case Entering(_) => 27
    case Refreshing(_) => 23
    case Budgeting(_, _) => 22
    case Attempting(_, _, _, left) => 18 + left
    case Leaking(_) => 17
    case Rechecking => 16
    case NotingFailure => 15
    case CheckingAgain(_) => 11
    case EnteringAgain(_) => 10
    case Finishing(_) => 6
    case Closing(_) => 5
    case Releasing => 1
  }

  /** Read, save, publish and send are four moves. */
  function Done(u: Update): nat {
    match u
    case Idle => 0
    case Loaded(_) => 1
    case Saved(_) => 2
    case Published(_) => 3
  }

  function MovesLeft(d: Driver): int {
    Ahead(d.phase) - Done(d.update)
  }

  lemma AfterLowers(d: Driver, ok: bool)
    requires Writes(d.phase)
    ensures MovesLeft(After(d, ok)) < MovesLeft(d) && WellPlaced(After(d, ok)) && !After(d, ok).phase.Working?
  {
  }

  lemma LoadLowers(k: Slot, d: Driver, c: Change, now: nat)
    requires Writes(d.phase) && d.update.Idle?
    ensures var d' := Load(k, d, c, now).driver.value;
            MovesLeft(d') < MovesLeft(d) && WellPlaced(d') && !d'.phase.Working? && Load(k, d, c, now).driver.Some?
  {
    AfterLowers(d, false);
  }

  /** A branch of teardown goes to a later phase or stays. */
  lemma MovedLowers(k: Slot, d: Driver, e: Event, bounded: bool)
    requires WellPlaced(d) && d.update.Idle? && !d.phase.Working? &&
        !(e.Proceed? && (Writes(d.phase) || d.phase.Releasing?))
    ensures var p := Moved(k, d, e, bounded);
            p == d.phase || (Ahead(p) < Ahead(d.phase) && !p.Working? && (p.Attempting? ==> p.left <= 3))
  {
  }

  lemma ResumedLowers(k: Slot, d: Driver, e: Event, bounded: bool)
    requires k.driver == Some(d) && WellPlaced(d) && d.update.Idle? && !d.phase.Working?
    ensures Lowered(k, Resumed(k, d, e, bounded))
  {
    if Writes(d.phase) && e.Proceed? {
      LoadLowers(k, d, ChangeFor(d.phase), e.now);
    } else if d.phase.Releasing? && e.Proceed? {
    } else {
      MovedLowers(k, d, e, bounded);
      StaysOrLowers(k, d, e, Moved(k, d, e, bounded));
    }
  }

  lemma StaysOrLowers(k: Slot, d: Driver, e: Event, p: Phase)
    requires k.driver == Some(d) && WellPlaced(d) && d.update.Idle? && !d.phase.Working?
    requires p == d.phase || (Ahead(p) < Ahead(d.phase) && !p.Working? && (p.Attempting? ==> p.left <= 3))
    requires d.phase.Attempting? && e.CleanupDone? ==> p != d.phase
    ensures Lowered(k, Advanced(k, d, e, p))
  {
    if p == d.phase {
      assert d.(phase := p) == d;
    }
  }

  /** Nothing happened, the owner is gone, or it has fewer moves left. */
  predicate Lowered(k: Slot, k': Slot) {
    k.driver.Some? &&
    (k' == k || k'.driver.None? ||
     (MovesLeft(k'.driver.value) < MovesLeft(k.driver.value) && WellPlaced(k'.driver.value) &&
         !k'.driver.value.phase.Working?))
  }

  /** Every effective step of an owner past the worker's return lowers its measure. */
  lemma DrivenLowers(k: Slot, e: Event, bounded: bool)
    requires k.driver.Some? && WellPlaced(k.driver.value) && !k.driver.value.phase.Working?
    ensures Lowered(k, Driven(k, e, bounded))
  {
    var d := k.driver.value;
    if e.Abort? && MayAbort(d) {
    } else if d.update.Idle? {
      ResumedLowers(k, d, e, bounded);
    } else {
      AfterLowers(d, false);
      AfterLowers(d, true);
    }
  }

  /** And there always is one. */
  lemma NeverStuck(k: Slot, bounded: bool) returns (e: Event)
    requires k.driver.Some? && WellPlaced(k.driver.value) && !k.driver.value.phase.Working?
    ensures !e.Abort? && Driven(k, e, bounded) != k
  {
    var d := k.driver.value;
    if d.update.Loaded? {
      e := SaveDone(false);
      AfterLowers(d, false);
    } else if d.update.Idle? && d.phase.Attempting? {
      e := CleanupDone(true);
    } else {
      e := Proceed(0);
      ProceedMoves(k, bounded);
    }
  }

  lemma ProceedMoves(k: Slot, bounded: bool)
    requires k.driver.Some? && WellPlaced(k.driver.value) && !k.driver.value.phase.Working?
    requires !k.driver.value.update.Loaded? && !(k.driver.value.update.Idle? && k.driver.value.phase.Attempting?)
    ensures Driven(k, Proceed(0), bounded) != k
  {
    var d := k.driver.value;
    if d.update.Idle? && Writes(d.phase) {
      LoadLowers(k, d, ChangeFor(d.phase), 0);
    } else if !d.update.Idle? {
      AfterLowers(d, false);
      AfterLowers(d, true);
    }
  }

  // ---------------------------------------------------------------- over whole runs

  ghost predicate AllHeld(slots: map<Id, Slot>) {
    forall id :: id in slots ==> Held(slots[id])
  }

  lemma DrivenHeld(k: Slot, e: Event, bounded: bool)
    requires Held(k) && k.driver.Some?
    ensures Held(Driven(k, e, bounded))
  {
    var d := k.driver.value;
    FlagsStay(k, e, bounded);
    if d.phase.Working? {
      WorkingPlaced(k, e, bounded);
    } else {
      DrivenLowers(k, e, bounded);
    }
  }

  lemma WorkingPlaced(k: Slot, e: Event, bounded: bool)
    requires k.driver.Some? && k.driver.value.phase.Working?
    ensures Driven(k, e, bounded).driver.Some? ==> WellPlaced(Driven(k, e, bounded).driver.value)
  {
    var d := k.driver.value;
    assert After(d, true) == d.(update := Idle) == After(d, false);
    if d.update.Idle? && !(e.Abort? && MayAbort(d)) {
      BackendPlaced(k, d, e, bounded);
    }
  }

  /** While its backend runs a worker reports or returns. */
  lemma BackendPlaced(k: Slot, d: Driver, e: Event, bounded: bool)
    requires d.phase.Working? && d.update.Idle?
    ensures Resumed(k, d, e, bounded).driver.Some? && WellPlaced(Resumed(k, d, e, bounded).driver.value)
  {
    var p := Moved(k, d, e, bounded);
    assert p.Working? || p.Deciding? || p.NotingExit?;
  }

  lemma FlagsStay(k: Slot, e: Event, bounded: bool)
    requires k.driver.Some?
    ensures var k' := Driven(k, e, bounded);
            k'.driver.Some? ==>
              && k'.driver.value.kind == k.driver.value.kind && (k'.entry.Some? <==> k.entry.Some?)
              && (k.entry.Some? ==> k'.entry.value.supervised == k.entry.value.supervised &&
                                    k'.entry.value.terminalizing == k.entry.value.terminalizing)
  {
    var d := k.driver.value;
    if d.update.Idle? {
      ResumedFlags(k, d, e, bounded);
    }
  }

  lemma ResumedFlags(k: Slot, d: Driver, e: Event, bounded: bool)
    ensures var k' := Resumed(k, d, e, bounded);
            k'.driver.Some? ==> k'.driver.value.kind == d.kind && k'.entry == k.entry
  {
  }

  lemma NextHeld(s: Sys, step: Step)
    requires AllHeld(s.slots)
    ensures AllHeld(Next(s, step).slots)
  {
    match step
    case Drive(id, e) => DriveHeld(s, id, e);
    case CreateCommit(tid, id, admitted, saveOk, now) => CommitHeld(s, tid, id, admitted, saveOk, now);
    case Extra(id, tid, ok) => BesideHeld(s, id, tid, ok);
    case Spawn(id, tid, c, now) => SpawnHeld(s, id, tid, c, now);
    case Cancel(id) => CancelHeld(s, id);
    case ShutdownStart(order) => CloseHeld(s, order);
    case _ =>
  }

  lemma DriveHeld(s: Sys, id: Id, e: Event)
    requires AllHeld(s.slots)
    ensures AllHeld(DriveStep(s, id, e).slots)
  {
    if id in s.slots && s.slots[id].driver.Some? {
      DrivenHeld(s.slots[id], e, !s.shutdown.NotStarted?);
    }
  }

  lemma CommitHeld(s: Sys, tid: nat, id: Id, admitted: bool, saveOk: bool, now: nat)
    requires AllHeld(s.slots)
    ensures AllHeld(Commit(s, tid, id, admitted, saveOk, now).slots)
  {
    CommitKeys(s, tid, id, admitted, saveOk, now);
  }

  lemma BesideHeld(s: Sys, id: Id, tid: nat, ok: bool)
    requires AllHeld(s.slots)
    ensures AllHeld(BesideStep(s, id, tid, ok).slots)
  {
    if id in s.slots && tid in s.slots[id].extras {
      ExtraFlags(s.slots[id], tid, ok);
    }
  }

  lemma SpawnHeld(s: Sys, id: Id, tid: nat, c: Change, now: nat)
    requires AllHeld(s.slots)
    ensures AllHeld(SpawnStep(s, id, tid, c, now).slots)
  {
  }

  lemma CancelHeld(s: Sys, id: Id)
    requires AllHeld(s.slots)
    ensures AllHeld(CancelStep(s, id).slots)
  {
  }

  lemma CloseHeld(s: Sys, order: seq<Id>)
    requires AllHeld(s.slots)
    ensures AllHeld(Close(s, order).slots)
  {
  }

  lemma ExtraFlags(k: Slot, tid: nat, ok: bool)
    requires tid in k.extras
    ensures var k' := ExtraStep(k, tid, ok);
            && k'.driver == k.driver && (k'.entry.Some? <==> k.entry.Some?)
            && (k.entry.Some? ==> k'.entry.value.supervised == k.entry.value.supervised &&
                                  k'.entry.value.terminalizing == k.entry.value.terminalizing)
  {
  }

  lemma {:induction false} RunHeld(config: Config, limit: nat, steps: seq<Step>)
    ensures AllHeld(Run(Start(config, limit), steps).slots)
  {
    if steps != [] {
      RunHeld(config, limit, steps[..|steps| - 1]);
      NextHeld(Run(Start(config, limit), steps[..|steps| - 1]), steps[|steps| - 1]);
    }
  }

  /** Every step but its own leaves an owner as it is. */
  lemma OthersLeaveOwner(s: Sys, step: Step, id: Id)
    requires AllHeld(s.slots) && id in s.slots && s.slots[id].driver.Some? && !(step.Drive? && step.id == id)
    ensures id in Next(s, step).slots && Next(s, step).slots[id].driver == s.slots[id].driver
  {
    assert Held(s.slots[id]);
    match step
    case CreateCommit(tid, new_, admitted, saveOk, now) => CommitKeys(s, tid, new_, admitted, saveOk, now);
    case Extra(o, tid, ok) =>
      if o in s.slots && tid in s.slots[o].extras {
        ExtraFlags(s.slots[o], tid, ok);
      }
    case _ =>
  }

  /** The steps of the run that moved the owner. */
  ghost function Moves(s: Sys, steps: seq<Step>, id: Id): nat {
    if steps == [] then 0
    else
      var before := steps[..|steps| - 1];
      Moves(s, before, id) + if IsMove(Run(s, before), steps[|steps| - 1], id) then 1 else 0
  }

  ghost predicate IsMove(s: Sys, step: Step, id: Id) {
    step.Drive? && step.id == id && id in s.slots && id in Next(s, step).slots && Next(s, step).slots[id] != s.slots[id]
  }

  /** The allocation had an owner throughout. */
  ghost predicate OwnedThroughout(s: Sys, steps: seq<Step>, id: Id) {
    forall n :: 0 <= n <= |steps| ==> id in Run(s, steps[..n]).slots && Run(s, steps[..n]).slots[id].driver.Some?
  }

  lemma {:induction false} MovesAreBounded(s: Sys, steps: seq<Step>, id: Id)
    requires AllHeld(s.slots) && OwnedThroughout(s, steps, id) && id in s.slots && s.slots[id].driver.Some?
    requires !s.slots[id].driver.value.phase.Working?
    ensures var t := Run(s, steps);
            && AllHeld(t.slots) && id in t.slots && t.slots[id].driver.Some? && !t.slots[id].driver.value.phase.Working?
            && Moves(s, steps, id) + MovesLeft(t.slots[id].driver.value) <= MovesLeft(s.slots[id].driver.value)
  {
    if steps != [] {
      var before, step := steps[..|steps| - 1], steps[|steps| - 1];
      ThroughoutPrefix(s, steps, id);
      MovesAreBounded(s, before, id);
      var t := Run(s, before);
      NextHeld(t, step);
      OneStep(t, step, id);
    }
  }

  lemma OneStep(s: Sys, step: Step, id: Id)
    requires AllHeld(s.slots) && id in s.slots && s.slots[id].driver.Some? && !s.slots[id].driver.value.phase.Working?
    requires id in Next(s, step).slots && Next(s, step).slots[id].driver.Some?
    ensures var d, d' := s.slots[id].driver.value, Next(s, step).slots[id].driver.value;
            !d'.phase.Working? && MovesLeft(d') + (if IsMove(s, step, id) then 1 else 0) <= MovesLeft(d)
  {
    if step.Drive? && step.id == id {
      assert Held(s.slots[id]);
      DrivenLowers(s.slots[id], step.event, !s.shutdown.NotStarted?);
    } else {
      OthersLeaveOwner(s, step, id);
    }
  }

  lemma MovesLeftBounds(d: Driver)
    requires WellPlaced(d) && !d.phase.Working?
    ensures 1 <= MovesLeft(d) <= MOST_MOVES
  {
  }

  /** From every state of every run in which an owner is past the worker's return, and over every
      continuation, with reloads, requests, cancels, overlapping updates, prunings and a shutdown
      between its steps and any store and cleanup failing: while it owns the allocation it makes fewer
      than 33 moves. With `NeverStuck`, every schedule that goes on driving it sees it released. */
  lemma TeardownEnds(config: Config, limit: nat, steps: seq<Step>, more: seq<Step>, id: Id)
    requires var s := Run(Start(config, limit), steps);
             && id in s.slots && s.slots[id].driver.Some? && !s.slots[id].driver.value.phase.Working?
             && OwnedThroughout(s, more, id)
    ensures Moves(Run(Start(config, limit), steps), more, id) < MOST_MOVES
  {
    var s := Run(Start(config, limit), steps);
    RunHeld(config, limit, steps);
    MovesAreBounded(s, more, id);
    var t := Run(s, more);
    assert Held(s.slots[id]) && Held(t.slots[id]);
    MovesLeftBounds(s.slots[id].driver.value);
    MovesLeftBounds(t.slots[id].driver.value);
  }

  // ---------------------------------------------------------------- cleanup attempts

  /** The event ends a cleanup attempt that is under way. */
  predicate IsAttempt(k: Slot, e: Event) {
    k.driver.Some? && k.driver.value.update.Idle? && k.driver.value.phase.Attempting? && e.CleanupDone?
  }

  /** After `made` attempts of at most `most` the owner can stand here; `closed` is whether a shutdown has
      begun. It gives cleanup up only after the last of three, or after the one a deadline allows. */
  predicate Accounted(p: Phase, made: nat, most: nat, closed: bool) {
    match p
    case Attempting(_, _, b, left) =>
      1 <= left && made + left == (if b then 1 else 3) && (most == 1 ==> b) && (b ==> closed)
    case Leaking(_) => made == 1 && closed
    case Rechecking => made <= most && (made == 3 || (made == 1 && closed))
    case NotingFailure => made <= most && (made == 3 || (made == 1 && closed))
    case CheckingAgain(_) => 1 <= made <= most
    case EnteringAgain(_) => 1 <= made <= most
    case Finishing(_) => 1 <= made <= most
    case Closing(_) => 1 <= made <= most
    case Releasing => made <= most
    case _ => made == 0
  }

  /** A shutdown that began meanwhile takes nothing back. */
  lemma AccountedLater(p: Phase, made: nat, most: nat, closed: bool, later: bool)
    requires Accounted(p, made, most, closed) && (closed ==> later)
    ensures Accounted(p, made, most, later)
  {
  }

  lemma MovedAccounted(k: Slot, d: Driver, e: Event, bounded: bool, made: nat, most: nat)
    requires Accounted(d.phase, made, most, bounded) && (most == 3 || (most == 1 && bounded)) && !d.phase.Working?
    ensures Accounted(Moved(k, d, e, bounded), made + (if d.phase.Attempting? && e.CleanupDone? then 1 else 0), most,
                      bounded)
  {
  }

  lemma AfterAccounted(d: Driver, ok: bool, made: nat, most: nat, closed: bool)
    requires Accounted(d.phase, made, most, closed)
    ensures Accounted(After(d, ok).phase, made, most, closed)
  {
  }

  lemma DrivenAccounted(k: Slot, e: Event, bounded: bool, made: nat, most: nat)
    requires k.driver.Some? && WellPlaced(k.driver.value) && !k.driver.value.phase.Working?
    requires Accounted(k.driver.value.phase, made, most, bounded) && (most == 3 || (most == 1 && bounded))
    ensures var k' := Driven(k, e, bounded);
            k'.driver.Some? ==>
              Accounted(k'.driver.value.phase, made + (if IsAttempt(k, e) then 1 else 0), most, bounded)
  {
    var d := k.driver.value;
    if e.Abort? && MayAbort(d) {
    } else if d.update.Idle? {
      ResumedAccounted(k, d, e, bounded, made, most);
    } else {
      WritingAccounted(k, d, e, bounded, made, most);
    }
  }

  /** Its own writes are no attempts. */
  lemma WritingAccounted(k: Slot, d: Driver, e: Event, bounded: bool, made: nat, most: nat)
    requires k.driver == Some(d) && !d.update.Idle? && !(e.Abort? && MayAbort(d))
    requires Accounted(d.phase, made, most, bounded)
    ensures var k' := Driven(k, e, bounded);
            k'.driver.Some? && Accounted(k'.driver.value.phase, made, most, bounded)
  {
    AfterAccounted(d, false, made, most, bounded);
    AfterAccounted(d, true, made, most, bounded);
  }

  lemma ResumedAccounted(k: Slot, d: Driver, e: Event, bounded: bool, made: nat, most: nat)
    requires k.driver == Some(d) && d.update.Idle? && !d.phase.Working?
    requires Accounted(d.phase, made, most, bounded) && (most == 3 || (most == 1 && bounded))
    ensures var k' := Resumed(k, d, e, bounded);
            k'.driver.Some? ==>
              Accounted(k'.driver.value.phase, made + (if IsAttempt(k, e) then 1 else 0), most, bounded)
  {
    if Writes(d.phase) && e.Proceed? {
      AfterAccounted(d, false, made, most, bounded);
    } else {
      MovedAccounted(k, d, e, bounded, made, most);
    }
  }

  /** The cleanup attempts of the allocation that ended in these steps. */
  ghost function AttemptsMade(s: Sys, steps: seq<Step>, id: Id): nat {
    if steps == [] then 0
    else
      var before, step := steps[..|steps| - 1], steps[|steps| - 1];
      var t := Run(s, before);
      AttemptsMade(s, before, id) +
      if step.Drive? && step.id == id && id in t.slots && IsAttempt(t.slots[id], step.event) then 1 else 0
  }

  /** Over every interleaving: an owner that has not begun to clean up, and keeps the allocation, has made
      exactly the attempts its phase accounts for. It is past cleanup only after at least one, makes at
      most three, and at most one once a shutdown has begun; and it gives up only after the third failed,
      or the one a shutdown's deadline allows. */
  lemma {:induction false} AttemptsAreAccounted(s: Sys, steps: seq<Step>, id: Id, most: nat)
    requires AllHeld(s.slots) && OwnedThroughout(s, steps, id) && id in s.slots && s.slots[id].driver.Some?
    requires !s.slots[id].driver.value.phase.Working?
    requires Accounted(s.slots[id].driver.value.phase, 0, most, !s.shutdown.NotStarted?)
    requires most == if s.shutdown.NotStarted? then 3 else 1
    ensures var t := Run(s, steps);
            && id in t.slots && t.slots[id].driver.Some?
            && Accounted(t.slots[id].driver.value.phase, AttemptsMade(s, steps, id), most, !t.shutdown.NotStarted?)
  {
    if steps != [] {
      var before, step := steps[..|steps| - 1], steps[|steps| - 1];
      ThroughoutPrefix(s, steps, id);
      AttemptsAreAccounted(s, before, id, most);
      MovesAreBounded(s, before, id);
      if !s.shutdown.NotStarted? {
        ClosedForGood(s, before);
      }
      AccountedStep(Run(s, before), step, id, AttemptsMade(s, before, id), most);
    }
  }

  lemma AccountedStep(s: Sys, step: Step, id: Id, made: nat, most: nat)
    requires AllHeld(s.slots) && id in s.slots && s.slots[id].driver.Some? && !s.slots[id].driver.value.phase.Working?
    requires Accounted(s.slots[id].driver.value.phase, made, most, !s.shutdown.NotStarted?)
    requires most == 3 || (most == 1 && !s.shutdown.NotStarted?)
    requires id in Next(s, step).slots && Next(s, step).slots[id].driver.Some?
    ensures var more := if step.Drive? && step.id == id && IsAttempt(s.slots[id], step.event) then 1 else 0;
            Accounted(Next(s, step).slots[id].driver.value.phase, made + more, most,
                      !Next(s, step).shutdown.NotStarted?)
  {
    var closed := !s.shutdown.NotStarted?;
    if step.Drive? && step.id == id {
      assert Held(s.slots[id]);
      DrivenAccounted(s.slots[id], step.event, closed, made, most);
    } else {
      OthersLeaveOwner(s, step, id);
      NextClosed(s, step);
      AccountedLater(s.slots[id].driver.value.phase, made, most, closed, !Next(s, step).shutdown.NotStarted?);
    }
  }

  lemma NextClosed(s: Sys, step: Step)
    ensures !s.shutdown.NotStarted? ==> !Next(s, step).shutdown.NotStarted?
  {
  }

  /** No phase after these makes a cleanup attempt. */
  predicate PastCleanup(p: Phase) {
    p.Leaking? || p.Rechecking? || p.NotingFailure? || p.CheckingAgain? || p.EnteringAgain? || p.Finishing? ||
    p.Closing? || p.Releasing?
  }

  lemma DrivenPast(k: Slot, e: Event, bounded: bool)
    requires k.driver.Some? && WellPlaced(k.driver.value) && PastCleanup(k.driver.value.phase)
    ensures !IsAttempt(k, e)
    ensures Driven(k, e, bounded).driver.Some? ==> PastCleanup(Driven(k, e, bounded).driver.value.phase) || e.Abort?
    ensures Driven(k, e, bounded).driver.Some? && e.Abort? ==> Driven(k, e, bounded) == k
  {
    var d := k.driver.value;
    if d.update.Idle? && !(e.Abort? && MayAbort(d)) {
      ResumedPast(k, d, e, bounded);
    }
  }

  lemma ResumedPast(k: Slot, d: Driver, e: Event, bounded: bool)
    requires k.driver == Some(d) && d.update.Idle? && PastCleanup(d.phase)
    ensures Resumed(k, d, e, bounded).driver.Some? ==> PastCleanup(Resumed(k, d, e, bounded).driver.value.phase)
    ensures e.Abort? ==> Resumed(k, d, e, bounded) == k
  {
    var p := Moved(k, d, e, bounded);
    assert PastCleanup(p);
    if e.Abort? {
      assert p == d.phase && d.(phase := p) == d;
    }
  }

  /** Past its cleanup an owner stays there and makes no attempt, over every continuation in which it keeps
      the allocation. */
  lemma {:induction false} PastForGood(s: Sys, steps: seq<Step>, id: Id)
    requires AllHeld(s.slots) && OwnedThroughout(s, steps, id) && id in s.slots && s.slots[id].driver.Some?
    requires PastCleanup(s.slots[id].driver.value.phase)
    ensures var t := Run(s, steps);
            && AllHeld(t.slots) && id in t.slots && t.slots[id].driver.Some?
            && PastCleanup(t.slots[id].driver.value.phase) && AttemptsMade(s, steps, id) == 0
  {
    if steps != [] {
      var before, step := steps[..|steps| - 1], steps[|steps| - 1];
      ThroughoutPrefix(s, steps, id);
      PastForGood(s, before, id);
      var t := Run(s, before);
      NextHeld(t, step);
      PastStep(t, step, id);
    }
  }

  lemma PastStep(s: Sys, step: Step, id: Id)
    requires AllHeld(s.slots) && id in s.slots && s.slots[id].driver.Some?
    requires PastCleanup(s.slots[id].driver.value.phase)
    requires id in Next(s, step).slots && Next(s, step).slots[id].driver.Some?
    ensures PastCleanup(Next(s, step).slots[id].driver.value.phase)
    ensures step.Drive? && step.id == id ==> !IsAttempt(s.slots[id], step.event)
  {
    if step.Drive? && step.id == id {
      assert Held(s.slots[id]);
      DrivenPast(s.slots[id], step.event, !s.shutdown.NotStarted?);
    } else {
      OthersLeaveOwner(s, step, id);
    }
  }

  /** After an attempt succeeded, its owner makes no other. */
  lemma NoneAfterSuccess(config: Config, limit: nat, steps: seq<Step>, step: Step, more: seq<Step>, id: Id)
    requires CleansUp(Run(Start(config, limit), steps), step, id)
    requires OwnedThroughout(Next(Run(Start(config, limit), steps), step), more, id)
    ensures AttemptsMade(Next(Run(Start(config, limit), steps), step), more, id) == 0
  {
    var s := Run(Start(config, limit), steps);
    RunHeld(config, limit, steps);
    NextHeld(s, step);
    var t := Next(s, step);
    assert t.slots[id].driver.value.phase.CheckingAgain?;
    PastForGood(t, more, id);
  }

  lemma ThroughoutPrefix(s: Sys, steps: seq<Step>, id: Id)
    requires steps != [] && OwnedThroughout(s, steps, id)
    ensures OwnedThroughout(s, steps[..|steps| - 1], id)
    ensures id in Run(s, steps).slots && Run(s, steps).slots[id].driver.Some?
  {
    var before := steps[..|steps| - 1];
    forall n | 0 <= n <= |before|
      ensures id in Run(s, before[..n]).slots && Run(s, before[..n]).slots[id].driver.Some?
    {
      assert before[..n] == steps[..n];
    }
    assert steps[..|steps|] == steps;
  }

  // ---------------------------------------------------------------- a dropped cancel

  /** Once an operator's cancel was dropped, no serial run takes the allocation up again: it stays
      unfinished and keeps its claim, whatever else is cancelled, created or shut down. */
  lemma {:induction false} DroppedForGood(s: Sys, steps: seq<Step>, id: Id)
    requires Serial(steps) && id in s.slots && LeftAlone(s.slots[id])
    ensures var t := Run(s, steps);
            id in t.slots && LeftAlone(t.slots[id]) && StaysAsLeft(s.slots[id], t.slots[id])
  {
    if steps != [] {
      var before := steps[..|steps| - 1];
      DroppedForGood(s, before, id);
      StaysDropped(Run(s, before), steps[|steps| - 1], id);
    }
  }

  /** Unfinished, claimed by an operator that is gone, and with no update beside it. */
  ghost predicate LeftAlone(k: Slot) {
    IsStuck(k) && k.extras == map[]
  }

  /** The entry stays as it was, and so does the store, unless an abandoned save of before lands in it. */
  ghost predicate StaysAsLeft(k: Slot, k': Slot) {
    && k'.entry == k.entry
    && (forall v :: v in k'.adrift ==> v in k.adrift)
    && (k'.record == k.record || k'.record in k.adrift)
  }

  lemma StaysDropped(s: Sys, step: Step, id: Id)
    requires !step.Spawn? && id in s.slots && LeftAlone(s.slots[id])
    ensures id in Next(s, step).slots && LeftAlone(Next(s, step).slots[id])
    ensures StaysAsLeft(s.slots[id], Next(s, step).slots[id])
  {
    if step.CreateCommit? {
      CommitKeys(s, step.tid, step.id, step.admitted, step.saveOk, step.now);
    }
  }

  /** The operator's request is dropped after its save and before it publishes. */
  lemma DroppedReaches(k: Slot) returns (l: Slot)
    requires k.driver.Some? && k.driver.value == Driver(Operator, Checking(Cancelled), Idle, k.driver.value.fallback)
    requires k.entry.Some? && k.entry.value.allocation.state.Requested? && k.entry.value.terminalizing
    ensures Reaches(k, false, l)
    ensures IsStuck(l) && l.extras == k.extras && l.record.state.Cleaning? && l.entry == k.entry
  {
    var entering := InPhase(k, Entering(Cancelled));
    l := DroppedAfterSave(entering);
    ReachesPhase(k, false, Proceed(0), Entering(Cancelled), l);
  }

  lemma DroppedAfterSave(k: Slot) returns (l: Slot)
    requires k.driver.Some? && k.driver.value == Driver(Operator, Entering(Cancelled), Idle, k.driver.value.fallback)
    requires k.entry.Some? && k.entry.value.allocation.state.Requested? && k.entry.value.terminalizing
    ensures Reaches(k, false, l)
    ensures IsStuck(l) && l.extras == k.extras && l.record.state.Cleaning? && l.entry == k.entry
  {
    var v := k.entry.value.allocation.(state := Cleaning, updatedAt := 0);
    var d := k.driver.value;
    var loaded := At(k, d.(update := Loaded(v)));
    var saved := SavedSlot(k, d, v);
    SavedHalf(k, false, 0, v);
    l := DroppedSaved(saved, v);
    ReachesBy(loaded, false, SaveDone(true), l);
    ReachesBy(k, false, Proceed(0), l);
  }

  lemma DroppedSaved(k: Slot, v: Allocation) returns (l: Slot)
    requires k.driver.Some? &&
        k.driver.value == Driver(Operator, Entering(Cancelled), Saved(v), k.driver.value.fallback)
    requires Live(k) && k.entry.value.terminalizing
    ensures Reaches(k, false, l)
    ensures IsStuck(l) && l.extras == k.extras && l.record == k.record && l.entry == k.entry
  {
    l := Aborted(k, k.driver.value);
    ReachesSelf(l, false);
    ReachesBy(k, false, Abort, l);
  }

  /** A serial run in which nothing is in flight and the store is ahead of the entry: the store says
      Cleaning, the entry Requested, and the claim on the entry stays. */
  lemma DroppedCancelSplitsTheRecord(config: Config, limit: nat, r: Request) returns (steps: seq<Step>)
    requires Authorized(config, r) && VmNames.VmName(config.prefix, r).Some?
    ensures Serial(steps)
    ensures var s := Run(Start(config, limit), steps);
            && 0 in s.slots && IsStuck(s.slots[0]) && s.slots[0].extras == map[]
            && s.slots[0].record.state.Cleaning? && s.slots[0].entry.value.allocation.state.Requested?
  {
    var first, s := GivenUp(config, limit, r);
    RunOwned(config, limit, first);
    assert Owned(0, s.slots[0]);
    var rest := Dropped(s);
    steps := first + rest;
    RunConcat(Start(config, limit), first, rest);
    SerialConcat(first, rest);
  }

  lemma Dropped(s: Sys) returns (steps: seq<Step>)
    requires s.shutdown.NotStarted? && 0 in s.slots && s.slots[0].driver.None? && s.slots[0].extras == map[]
    requires s.slots[0].entry.Some? && s.slots[0].entry.value.allocation.state.Requested?
    requires !s.slots[0].entry.value.supervised && !s.slots[0].entry.value.terminalizing
    ensures Serial(steps)
    ensures var t := Run(s, steps);
            && 0 in t.slots && IsStuck(t.slots[0]) && t.slots[0].extras == map[]
            && t.slots[0].record.state.Cleaning? && t.slots[0].entry.value.allocation.state.Requested?
  {
    var t := CancelStep(s, 0);
    var l := DroppedReaches(t.slots[0]);
    var events :| NeverLeaks(t.slots[0], false, events) && DrivenBy(t.slots[0], false, events) == l;
    steps := [Cancel(0)] + Drives(0, events);
    RunConcat(s, [Cancel(0)], Drives(0, events));
    RunOne(s, Cancel(0));
    RunDrives(t, 0, events);
    SerialConcat([Cancel(0)], Drives(0, events));
  }

  // ---------------------------------------------------------------- a save that lands late

  /** A worker is dropped inside the save of its first report; its guard then finishes the work. */
  lemma LateSaveReaches(k: Slot) returns (l: Slot)
    requires k.driver.Some? && k.driver.value == Driver(Worker, Working, Idle, k.driver.value.fallback)
    requires k.entry.Some? && k.entry.value.allocation.state.Requested? && !k.cancelled && k.adrift == []
    ensures Reaches(k, false, l) && l.driver.None? && |l.adrift| == 1 && l.adrift[0].state.Preparing?
    ensures l.entry.Some? && l.entry.value.allocation.state.Failed? && l.record == l.entry.value.allocation
  {
    var d := k.driver.value;
    var v := k.entry.value.allocation.(state := Preparing, updatedAt := 0);
    var loaded := At(k, d.(update := Loaded(v)));
    var dropped := Aborted(loaded, loaded.driver.value);
    l := NotedReaches(dropped);
    ReachesBy(loaded, false, Abort, l);
    assert Driven(k, Report(ToState(Preparing), 0), false) == loaded;
    ReachesBy(k, false, Report(ToState(Preparing), 0), l);
  }

  lemma NotedReaches(k: Slot) returns (l: Slot)
    requires k.driver.Some? && k.driver.value == Driver(Worker, NotingExit, Idle, k.driver.value.fallback)
    requires Live(k) && !k.cancelled
    ensures Reaches(k, false, l) && ClosedAs(k, Failed, l)
  {
    var noted := Written(k, k.entry.value.allocation.(error := Some(WorkerStopped), updatedAt := 0));
    l := CheckingReaches(InPhase(noted, Checking(Failed)), Failed, 0);
    ReachesPhase(noted, false, Proceed(0), Checking(Failed), l);
    UpdateReaches(k, false, 0, l);
  }

  /** A serial run in which an abandoned save lands after everything else was written: the entry says
      Failed, nobody owns it, and the store says Preparing. */
  lemma LateSaveRewindsTheStore(config: Config, limit: nat, r: Request) returns (steps: seq<Step>)
    requires Authorized(config, r) && VmNames.VmName(config.prefix, r).Some?
    ensures Serial(steps)
    ensures var s := Run(Start(config, limit), steps);
            && 0 in s.slots && s.slots[0].driver.None? && s.slots[0].entry.Some?
            && s.slots[0].entry.value.allocation.state.Failed? && s.slots[0].record.state.Preparing?
  {
    OneCreated(config, limit, r);
    var one := OneAllocation(config, limit, r);
    var l := LateSaveReaches(one.slots[0]);
    var events :| NeverLeaks(one.slots[0], false, events) && DrivenBy(one.slots[0], false, events) == l;
    RunDrives(one, 0, events);
    var first := OneRequest(0, r) + Drives(0, events);
    RunConcat(Start(config, limit), OneRequest(0, r), Drives(0, events));
    SerialConcat(OneRequest(0, r), Drives(0, events));
    steps := LandedLast(Start(config, limit), first, l);
  }

  lemma LandedLast(s0: Sys, first: seq<Step>, l: Slot) returns (steps: seq<Step>)
    requires Serial(first) && 0 in Run(s0, first).slots && Run(s0, first).slots[0] == l && |l.adrift| == 1
    ensures Serial(steps) && 0 in Run(s0, steps).slots && Run(s0, steps).slots[0] == Landed(l, 0)
  {
    steps := first + [Land(0, 0)];
    RunConcat(s0, first, [Land(0, 0)]);
    RunOne(Run(s0, first), Land(0, 0));
    SerialConcat(first, [Land(0, 0)]);
  }
}
