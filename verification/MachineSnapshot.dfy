/** What shutdown waits for: exactly the unfinished work somebody is driving, or was driving when the
    request was dropped. crates/flanforge-manager/src/shutdown.rs. */
module MachineSnapshot {
  import opened Base
  import opened Allocations
  import opened Machine
  import opened MachineSafety
  import opened MachineIdentity
  import opened MachineRuns

  /** The step drops an operator's cancel of the allocation. */
  predicate Drops(s: Sys, step: Step, id: Id) {
    && step == Drive(id, Abort) && id in s.slots && s.slots[id].driver.Some?
    && s.slots[id].driver.value.kind.Operator? && !s.slots[id].driver.value.update.Published?
  }

  ghost predicate DroppedIn(s: Sys, steps: seq<Step>, id: Id) {
    exists n :: 0 <= n < |steps| && Drops(Run(s, steps[..n]), steps[n], id)
  }

  lemma DroppedMore(s: Sys, steps: seq<Step>, step: Step, id: Id)
    ensures DroppedIn(s, steps + [step], id) <==> DroppedIn(s, steps, id) || Drops(Run(s, steps), step, id)
  {
    var more := steps + [step];
    assert more[..|steps|] == steps && more[|steps|] == step;
    if n :| 0 <= n < |more| && Drops(Run(s, more[..n]), more[n], id) {
      assert n < |steps| ==> more[..n] == steps[..n] && more[n] == steps[n];
    }
    if n :| 0 <= n < |steps| && Drops(Run(s, steps[..n]), steps[n], id) {
      assert more[..n] == steps[..n] && more[n] == steps[n];
    }
    if Drops(Run(s, steps), step, id) {
      assert Drops(Run(s, more[..|steps|]), more[|steps|], id);
    }
  }

  /** Without an owner, the claim on an entry is that of a dropped cancel; and after a drop no owner comes. */
  predicate Claimed(k: Slot, dropped: bool) {
    && (dropped ==> k.driver.None?)
    && (k.driver.None? && k.entry.Some? ==> (k.entry.value.terminalizing <==> dropped))
  }

  lemma DrivenClaimed(id: Id, k: Slot, e: Event, bounded: bool)
    requires Owned(id, k) && k.driver.Some?
    ensures var d := k.driver.value;
            Claimed(Driven(k, e, bounded), e.Abort? && d.kind.Operator? && !d.update.Published?)
  {
    var d := k.driver.value;
    if e.Abort? && MayAbort(d) {
    } else if d.update.Idle? {
      ResumedClaimed(id, k, d, e, bounded);
    }
  }

  lemma ResumedClaimed(id: Id, k: Slot, d: Driver, e: Event, bounded: bool)
    requires Owned(id, k) && k.driver == Some(d) && d.update.Idle? && !(e.Abort? && d.kind.Operator?)
    ensures Claimed(Resumed(k, d, e, bounded), false)
  {
  }

  /** Every step but the owner's own. */
  lemma OthersClaimed(s: Sys, step: Step, id: Id, dropped: bool)
    requires AllOwned(s.slots) && !step.Spawn? && id in s.slots && Claimed(s.slots[id], dropped)
    requires !(step.Drive? && step.id == id && s.slots[id].driver.Some?)
    ensures id in Next(s, step).slots && Claimed(Next(s, step).slots[id], dropped)
  {
    assert Owned(id, s.slots[id]);
    OthersBeside(s, step, id);
  }

  lemma NextClaimed(s: Sys, step: Step, id: Id, dropped: bool)
    requires AllOwned(s.slots) && !step.Spawn? && id in s.slots && Claimed(s.slots[id], dropped)
    ensures id in Next(s, step).slots && Claimed(Next(s, step).slots[id], dropped || Drops(s, step, id))
  {
    if step.Drive? && step.id == id && s.slots[id].driver.Some? {
      assert Owned(id, s.slots[id]);
      DrivenClaimed(id, s.slots[id], step.event, !s.shutdown.NotStarted?);
    } else {
      OthersClaimed(s, step, id, dropped);
    }
  }

  lemma {:induction false} RunClaimed(config: Config, limit: nat, steps: seq<Step>, id: Id)
    requires Serial(steps)
    ensures var s := Run(Start(config, limit), steps);
            if id in s.slots then Claimed(s.slots[id], DroppedIn(Start(config, limit), steps, id))
            else !DroppedIn(Start(config, limit), steps, id)
  {
    if steps != [] {
      var before, step := steps[..|steps| - 1], steps[|steps| - 1];
      var s0 := Start(config, limit);
      RunClaimed(config, limit, before, id);
      RunOwned(config, limit, before);
      assert steps == before + [step];
      DroppedMore(s0, before, step, id);
      if id in Run(s0, before).slots {
        NextClaimed(Run(s0, before), step, id, DroppedIn(s0, before, id));
      } else {
        NewlyClaimed(Run(s0, before), step, id);
      }
    }
  }

  lemma NewlyClaimed(s: Sys, step: Step, id: Id)
    requires id !in s.slots
    ensures id in Next(s, step).slots ==> Claimed(Next(s, step).slots[id], false)
  {
    if step.CreateCommit? {
      CommitKeys(s, step.tid, step.id, step.admitted, step.saveOk, step.now);
    }
  }

  /** In every serial run, the locked section of shutdown awaits an allocation exactly when it is
      resident and unfinished and a worker or an operator owns it, or an operator's cancel of it was
      dropped; each once; and it signals exactly those. */
  lemma SnapshotExactly(config: Config, limit: nat, steps: seq<Step>, order: seq<Id>)
    requires Serial(steps) && Run(Start(config, limit), steps).shutdown.NotStarted?
    requires Next(Run(Start(config, limit), steps), ShutdownStart(order)).shutdown.Waiting?
    ensures var s := Run(Start(config, limit), steps);
            var t := Next(s, ShutdownStart(order));
            && (forall i, j :: 0 <= i < j < |t.shutdown.awaited| ==> t.shutdown.awaited[i] != t.shutdown.awaited[j])
            && (forall id :: id in t.shutdown.awaited <==>
                  && id in s.slots && s.slots[id].entry.Some?
                  && !s.slots[id].entry.value.allocation.state.Completed?
                  && !s.slots[id].entry.value.allocation.state.Failed?
                  && !s.slots[id].entry.value.allocation.state.Cancelled?
                  && (s.slots[id].driver.Some? || DroppedIn(Start(config, limit), steps, id)))
            && t.slots.Keys == s.slots.Keys
            && (forall id :: id in s.slots ==>
                  t.slots[id] == s.slots[id].(cancelled := s.slots[id].cancelled || id in t.shutdown.awaited))
  {
    var s := Run(Start(config, limit), steps);
    RunOwned(config, limit, steps);
    forall id | id in s.slots && s.slots[id].entry.Some?
      ensures s.slots[id].entry.value.supervised || s.slots[id].entry.value.terminalizing <==>
              s.slots[id].driver.Some? || DroppedIn(Start(config, limit), steps, id)
    {
      assert Owned(id, s.slots[id]);
      RunClaimed(config, limit, steps, id);
    }
  }

  /** And there always is an order to list them in, so shutdown is never refused. */
  lemma ShutdownStarts(s: Sys) returns (order: seq<Id>)
    requires s.shutdown.NotStarted?
    ensures Next(s, ShutdownStart(order)).shutdown == Waiting(order, 0)
  {
    order := Ordered(set id | id in s.slots && IsAwaited(s.slots[id]));
  }

  lemma {:induction false} Ordered(ids: set<Id>) returns (order: seq<Id>)
    ensures Distinct(order) && forall id :: id in order <==> id in ids
    decreases |ids|
  {
    order := [];
    if ids != {} {
      var id :| id in ids;
      var rest := Ordered(ids - {id});
      order := rest + [id];
    }
  }
}
