/** Where every write goes: an abandoned save is lost nowhere, and an update beside the owner shows as
    one of the owner's does. crates/flanforge-manager/src/state.rs. */
module MachineStore {
  import opened Base
  import opened Allocations
  import opened Machine
  import opened MachineIdentity

  // ---------------------------------------------------------------- abandoned saves

  /** The value whose save is abandoned: the owner is dropped while it waits for it. */
  function AbandonedFrom(k: Slot, e: Event): multiset<Allocation> {
    if e.Abort? && k.driver.Some? && k.driver.value.update.Loaded? &&
       (k.driver.value.phase.Working? || k.driver.value.kind.Operator?)
    then multiset{k.driver.value.update.value}
    else multiset{}
  }

  function AbandonedBy(s: Sys, step: Step, id: Id): multiset<Allocation> {
    if step.Drive? && step.id == id && id in s.slots then AbandonedFrom(s.slots[id], step.event) else multiset{}
  }

  /** The value of the abandoned save that lands by the step. */
  function LandedBy(s: Sys, step: Step, id: Id): multiset<Allocation> {
    if step.Land? && step.id == id && id in s.slots && step.n < |s.slots[id].adrift|
    then multiset{s.slots[id].adrift[step.n]}
    else multiset{}
  }

  ghost function Abandoned(s: Sys, steps: seq<Step>, id: Id): multiset<Allocation> {
    if steps == [] then multiset{}
    else
      var before := steps[..|steps| - 1];
      Abandoned(s, before, id) + AbandonedBy(Run(s, before), steps[|steps| - 1], id)
  }

  ghost function LandedIn(s: Sys, steps: seq<Step>, id: Id): multiset<Allocation> {
    if steps == [] then multiset{}
    else
      var before := steps[..|steps| - 1];
      LandedIn(s, before, id) + LandedBy(Run(s, before), steps[|steps| - 1], id)
  }

  ghost function Adrift(s: Sys, id: Id): multiset<Allocation> {
    if id in s.slots then multiset(s.slots[id].adrift) else multiset{}
  }

  lemma WithoutOne(xs: seq<Allocation>, n: nat)
    requires n < |xs|
    ensures multiset(xs[..n] + xs[n + 1..]) + multiset{xs[n]} == multiset(xs)
  {
    assert xs == xs[..n] + [xs[n]] + xs[n + 1..];
  }

  lemma DrivenAdrift(k: Slot, e: Event, bounded: bool)
    requires k.driver.Some?
    ensures Driven(k, e, bounded).adrift ==
            if e.Abort? && k.driver.value.update.Loaded? && MayAbort(k.driver.value)
            then k.adrift + [k.driver.value.update.value] else k.adrift
  {
    var d := k.driver.value;
    if d.update.Idle? && !(e.Abort? && MayAbort(d)) {
      ResumedAdrift(k, d, e, bounded);
    }
  }

  lemma ResumedAdrift(k: Slot, d: Driver, e: Event, bounded: bool)
    ensures Resumed(k, d, e, bounded).adrift == k.adrift
  {
  }

  lemma DrivenBag(k: Slot, e: Event, bounded: bool)
    requires k.driver.Some?
    ensures multiset(Driven(k, e, bounded).adrift) == multiset(k.adrift) + AbandonedFrom(k, e)
  {
    DrivenAdrift(k, e, bounded);
    if AbandonedFrom(k, e) == multiset{} {
      Plain(multiset(k.adrift), multiset(k.adrift));
    }
  }

  lemma DriveAdrift(s: Sys, id: Id, e: Event)
    ensures Adrift(s, id) + AbandonedBy(s, Drive(id, e), id) == Adrift(Next(s, Drive(id, e)), id)
  {
    if id in s.slots && s.slots[id].driver.Some? {
      var k := s.slots[id];
      DrivenBag(k, e, !s.shutdown.NotStarted?);
      assert Next(s, Drive(id, e)).slots[id] == Driven(k, e, !s.shutdown.NotStarted?);
      assert AbandonedBy(s, Drive(id, e), id) == AbandonedFrom(k, e);
    } else {
      Plain(Adrift(s, id), Adrift(s, id));
    }
  }

  lemma LandAdrift(s: Sys, id: Id, n: nat)
    ensures Adrift(s, id) == LandedBy(s, Land(id, n), id) + Adrift(Next(s, Land(id, n)), id)
  {
    if id in s.slots && n < |s.slots[id].adrift| {
      WithoutOne(s.slots[id].adrift, n);
    } else {
      assert Next(s, Land(id, n)) == s;
    }
  }

  /** No other step touches them. */
  lemma OthersAdrift(s: Sys, step: Step, id: Id)
    requires !((step.Drive? || step.Land?) && step.id == id)
    ensures Adrift(Next(s, step), id) == Adrift(s, id)
  {
    if step.CreateCommit? {
      CommitKeys(s, step.tid, step.id, step.admitted, step.saveOk, step.now);
    } else if step.Extra? && step.id == id && id in s.slots && step.tid in s.slots[id].extras {
      ExtraAdrift(s.slots[id], step.tid, step.ok);
    }
  }

  lemma ExtraAdrift(k: Slot, tid: nat, ok: bool)
    requires tid in k.extras
    ensures ExtraStep(k, tid, ok).adrift == k.adrift
  {
  }

  /** In every run, overlapping updates included, the saves that were abandoned are those that landed
      since and those that still may, each as often as it was abandoned. */
  lemma {:induction false} AbandonedSavesAreConserved(config: Config, limit: nat, steps: seq<Step>, id: Id)
    ensures var s0 := Start(config, limit);
            Abandoned(s0, steps, id) == LandedIn(s0, steps, id) + Adrift(Run(s0, steps), id)
  {
    if steps != [] {
      var s0, before, step := Start(config, limit), steps[..|steps| - 1], steps[|steps| - 1];
      AbandonedSavesAreConserved(config, limit, before, id);
      var s := Run(s0, before);
      NextAdrift(s, step, id);
      Balanced(Abandoned(s0, before, id), LandedIn(s0, before, id), Adrift(s, id), AbandonedBy(s, step, id),
               LandedBy(s, step, id), Adrift(Next(s, step), id));
    }
  }

  lemma Balanced<T>(a: multiset<T>, b: multiset<T>, c: multiset<T>, x: multiset<T>, y: multiset<T>, z: multiset<T>)
    requires a == b + c && c + x == y + z
    ensures a + x == b + y + z
  {
    assert a + x == b + (c + x);
  }

  lemma NextAdrift(s: Sys, step: Step, id: Id)
    ensures Adrift(s, id) + AbandonedBy(s, step, id) == LandedBy(s, step, id) + Adrift(Next(s, step), id)
  {
    if step.Drive? && step.id == id {
      DriveAdrift(s, id, step.event);
      Plain(Adrift(s, id) + AbandonedBy(s, step, id), Adrift(Next(s, step), id));
    } else if step.Land? && step.id == id {
      LandAdrift(s, id, step.n);
      Plain(Adrift(s, id), LandedBy(s, step, id) + Adrift(Next(s, step), id));
    } else {
      OthersAdrift(s, step, id);
      Plain(Adrift(s, id), Adrift(Next(s, step), id));
    }
  }

  lemma Plain<T>(a: multiset<T>, b: multiset<T>)
    requires a == b
    ensures a + multiset{} == b && a == multiset{} + b && a + multiset{} == multiset{} + b
  {
  }

  // ---------------------------------------------------------------- an update beside the owner

  /** An update that nothing comes between: store, entry and channel all show the edited record, and
      the owner is as it was; a failed save leaves all of them alone. */
  lemma BesideShows(k: Slot, tid: nat, c: Change, now: nat)
    requires k.entry.Some? && tid !in k.extras && Applied(k.entry.value.allocation, c, now).Some?
    ensures var v := Applied(k.entry.value.allocation, c, now).value;
            var loaded := Spawned(k, tid, c, now);
            && tid in loaded.extras
            && ExtraStep(loaded, tid, false) == k
            && var saved := ExtraStep(loaded, tid, true);
            && tid in saved.extras && saved.record == v && v in saved.saved && saved.entry == k.entry
            && var published := ExtraStep(saved, tid, true);
            && tid in published.extras && published.entry == Some(k.entry.value.(allocation := v))
            && var sent := ExtraStep(published, tid, true);
               sent == k.(record := v, saved := k.saved + {v}, channel := v,
                          entry := Some(k.entry.value.(allocation := v)))
  {
    var v := Applied(k.entry.value.allocation, c, now).value;
    assert k.extras[tid := Loaded(v)] - {tid} == k.extras;
    assert k.extras[tid := Loaded(v)][tid := Saved(v)][tid := Published(v)] - {tid} == k.extras;
  }
}
