/** Safety of whole serial runs of the allocation manager: forward motion, one live allocation per
    attempt, one machine name per live allocation, what the store may hold, and that success means a
    cleanup. */
module MachineRuns {
  import opened Base
  import opened Allocations
  import opened Machine
  import opened MachineSafety
  import opened MachineIdentity
  import VmNames

  // ---------------------------------------------------------------- runs

  lemma RunStep(s: Sys, steps: seq<Step>, step: Step)
    ensures Run(s, steps + [step]) == Next(Run(s, steps), step)
  {
    assert (steps + [step])[..|steps|] == steps;
  }

  lemma RunOne(s: Sys, step: Step)
    ensures Run(s, [step]) == Next(s, step)
  {
    RunStep(s, [], step);
    assert [] + [step] == [step];
  }

  lemma {:induction false} RunConcat(s: Sys, a: seq<Step>, b: seq<Step>)
    ensures Run(s, a + b) == Run(Run(s, a), b)
  {
    if b == [] {
      assert a + b == a;
    } else {
      var init, last := b[..|b| - 1], b[|b| - 1];
      RunConcat(s, a, init);
      assert a + b == (a + init) + [last] && b == init + [last];
      RunStep(s, a + init, last);
      RunStep(Run(s, a), init, last);
    }
  }

  lemma {:induction false} RunOwned(config: Config, limit: nat, steps: seq<Step>)
    requires Serial(steps)
    ensures AllOwned(Run(Start(config, limit), steps).slots)
  {
    if steps != [] {
      RunOwned(config, limit, steps[..|steps| - 1]);
      NextOwned(Run(Start(config, limit), steps[..|steps| - 1]), steps[|steps| - 1]);
    }
  }

  lemma OnwardTransitive(a: Slot, b: Slot, c: Slot)
    requires Onward(a, b) && Onward(b, c)
    ensures Onward(a, c)
  {
  }

  /** Along every serial run each allocation only moves forward: a state is never revisited, a
      finished allocation is never live again, and supervision is never regained. */
  lemma {:induction false} RunOnward(config: Config, limit: nat, steps: seq<Step>, more: seq<Step>)
    requires Serial(steps + more)
    ensures AllOnward(Run(Start(config, limit), steps).slots, Run(Start(config, limit), steps + more).slots)
  {
    var s := Run(Start(config, limit), steps);
    if more == [] {
      assert steps + more == steps;
      StandingStill(s.slots);
    } else {
      var init, last := more[..|more| - 1], more[|more| - 1];
      assert steps + more == steps + init + [last];
      assert Serial(steps + init) by {
        forall i | 0 <= i < |steps + init| ensures !(steps + init)[i].Spawn? {
          assert (steps + init)[i] == (steps + more)[i];
        }
      }
      assert (steps + more)[|steps| + |init|] == last;
      RunOnward(config, limit, steps, init);
      RunOwned(config, limit, steps + init);
      var t := Run(Start(config, limit), steps + init);
      RunStep(Start(config, limit), steps + init, last);
      NextOwned(t, last);
      forall id | id in s.slots ensures Onward(s.slots[id], Next(t, last).slots[id]) {
        OnwardTransitive(s.slots[id], t.slots[id], Next(t, last).slots[id]);
      }
    }
  }

  // ---------------------------------------------------------------- one live allocation per attempt

  lemma LiveBefore(k: Slot, k': Slot)
    requires Onward(k, k') && Live(k')
    ensures Live(k) && k.entry.value.allocation.request == k'.entry.value.allocation.request
    ensures k'.entry.value.supervised ==> k.entry.value.supervised
  {
  }

  lemma NextKeys(s: Sys, step: Step)
    ensures step.CreateCommit? || Next(s, step).slots.Keys == s.slots.Keys
  {
  }

  /** An owner publishes only over its own live entry. */
  lemma OwnersNeverRevive(s: Sys, step: Step)
    requires AllOwned(s.slots)
    ensures !Revives(s, step)
  {
    if Publishing(s, step).Some? {
      var id := Publishing(s, step).value.0;
      assert Owned(id, s.slots[id]);
    }
  }

  /** In every serial run at most one live allocation exists per run attempt. */
  lemma {:induction false} OneLivePerAttempt(config: Config, limit: nat, steps: seq<Step>)
    requires Serial(steps)
    ensures Unique(Run(Start(config, limit), steps).slots)
  {
    if steps != [] {
      var before := steps[..|steps| - 1];
      OneLivePerAttempt(config, limit, before);
      RunOwned(config, limit, before);
      OwnersNeverRevive(Run(Start(config, limit), before), steps[|steps| - 1]);
      UniqueLostExactly(config, limit, before, steps[|steps| - 1]);
    }
  }

  // ---------------------------------------------------------------- store, entry and channel

  /** The value the step leaves in the store alone: an abandoned save lands, or an owner is dropped after
      its save and before it publishes. */
  function Strand(s: Sys, step: Step, id: Id): Option<Allocation> {
    if id !in s.slots then None
    else if step.Land? && step.id == id && step.n < |s.slots[id].adrift| then Some(s.slots[id].adrift[step.n])
    else if step.Drive? && step.id == id && StrandsBy(s.slots[id], step.event) then Some(s.slots[id].record)
    else None
  }

  predicate StrandsBy(k: Slot, e: Event) {
    e.Abort? && k.driver.Some? && MayAbort(k.driver.value) && k.driver.value.update.Saved?
  }

  /** The owner writes the store. */
  predicate Settles(s: Sys, step: Step, id: Id) {
    step.Drive? && step.id == id && id in s.slots && SettlesBy(s.slots[id], step.event)
  }

  predicate SettlesBy(k: Slot, e: Event) {
    e == SaveDone(true) && k.driver.Some? && k.driver.value.update.Loaded?
  }

  lemma DrivenStranded(k: Slot, e: Event, bounded: bool)
    requires k.driver.Some?
    ensures Driven(k, e, bounded).stranded ==
            if StrandsBy(k, e) then Some(k.record) else if SettlesBy(k, e) then None else k.stranded
  {
    var d := k.driver.value;
    if d.update.Idle? && !(e.Abort? && MayAbort(d)) {
      ResumedStranded(k, d, e, bounded);
    }
  }

  lemma ResumedStranded(k: Slot, d: Driver, e: Event, bounded: bool)
    ensures Resumed(k, d, e, bounded).stranded == k.stranded
  {
  }

  lemma CommitStranded(s: Sys, step: Step, id: Id)
    requires step.CreateCommit? && id in s.slots
    ensures id in Next(s, step).slots && Next(s, step).slots[id].stranded == s.slots[id].stranded
  {
    CommitKeys(s, step.tid, step.id, step.admitted, step.saveOk, step.now);
  }

  lemma NextStranded(s: Sys, step: Step, id: Id)
    requires id in s.slots
    ensures id in Next(s, step).slots
    ensures Next(s, step).slots[id].stranded ==
            if Strand(s, step, id).Some? then Strand(s, step, id)
            else if Settles(s, step, id) then None
            else s.slots[id].stranded
  {
    if step.CreateCommit? {
      CommitStranded(s, step, id);
    } else if step.Drive? && step.id == id && s.slots[id].driver.Some? {
      DrivenStranded(s.slots[id], step.event, !s.shutdown.NotStarted?);
    }
  }

  /** Step `n` leaves `v` in the store, and no later step leaves another value or is a write of the owner. */
  ghost predicate StrandsLast(s: Sys, steps: seq<Step>, id: Id, n: int, v: Allocation) {
    && 0 <= n < |steps| && Strand(Run(s, steps[..n]), steps[n], id) == Some(v)
    && forall m :: n < m < |steps| ==>
       Strand(Run(s, steps[..m]), steps[m], id).None? && !Settles(Run(s, steps[..m]), steps[m], id)
  }

  lemma {:induction false} SlotsStay(s: Sys, steps: seq<Step>, n: nat, id: Id)
    requires n <= |steps| && id in Run(s, steps[..n]).slots
    ensures id in Run(s, steps).slots
  {
    if n == |steps| {
      assert steps[..n] == steps;
    } else {
      var before := steps[..|steps| - 1];
      assert before[..n] == steps[..n];
      SlotsStay(s, before, n, id);
      NextStranded(Run(s, before), steps[|steps| - 1], id);
    }
  }

  lemma StrandsLastStep(s: Sys, steps: seq<Step>, step: Step, id: Id, n: int, v: Allocation)
    requires Strand(Run(s, steps), step, id).None? && !Settles(Run(s, steps), step, id)
    ensures StrandsLast(s, steps + [step], id, n, v) <==> StrandsLast(s, steps, id, n, v)
  {
    var more := steps + [step];
    forall m | 0 <= m < |steps| ensures more[..m] == steps[..m] && more[m] == steps[m] {
    }
    assert more[..|steps|] == steps;
  }

  lemma StrandsNow(s: Sys, steps: seq<Step>, step: Step, id: Id, n: int, v: Allocation)
    requires Strand(Run(s, steps), step, id).Some? || Settles(Run(s, steps), step, id)
    ensures StrandsLast(s, steps + [step], id, n, v) <==> n == |steps| && Strand(Run(s, steps), step, id) == Some(v)
  {
    var more := steps + [step];
    assert more[..|steps|] == steps && more[|steps|] == step;
  }

  /** In every run the mark is set exactly when an abandoned save landed, or an owner was dropped after its
      save, and no owner wrote since; it is then the last such value. */
  lemma {:induction false} StrandedExactly(config: Config, limit: nat, steps: seq<Step>, id: Id, v: Allocation)
    requires id in Run(Start(config, limit), steps).slots
    ensures Run(Start(config, limit), steps).slots[id].stranded == Some(v) <==>
            exists n :: StrandsLast(Start(config, limit), steps, id, n, v)
  {
    var s0 := Start(config, limit);
    if steps != [] {
      var before, step := steps[..|steps| - 1], steps[|steps| - 1];
      var s := Run(s0, before);
      assert steps == before + [step];
      if id in s.slots {
        StrandedExactly(config, limit, before, id, v);
        NextStranded(s, step, id);
        if Strand(s, step, id).None? && !Settles(s, step, id) {
          forall n ensures StrandsLast(s0, steps, id, n, v) <==> StrandsLast(s0, before, id, n, v) {
            StrandsLastStep(s0, before, step, id, n, v);
          }
        } else {
          forall n ensures StrandsLast(s0, steps, id, n, v) <==> n == |before| && Strand(s, step, id) == Some(v) {
            StrandsNow(s0, before, step, id, n, v);
          }
          assert StrandsLast(s0, steps, id, |before|, v) <==> Strand(s, step, id) == Some(v);
        }
      } else {
        FreshIsNotStranded(s0, before, step, id, v);
      }
    }
  }

  lemma FreshIsNotStranded(s0: Sys, before: seq<Step>, step: Step, id: Id, v: Allocation)
    requires id !in Run(s0, before).slots && id in Next(Run(s0, before), step).slots
    ensures Next(Run(s0, before), step).slots[id].stranded.None?
    ensures forall n :: !StrandsLast(s0, before + [step], id, n, v)
  {
    var s := Run(s0, before);
    NextKeys(s, step);
    CommitKeys(s, step.tid, step.id, step.admitted, step.saveOk, step.now);
    forall n ensures !StrandsLast(s0, before + [step], id, n, v) {
      if 0 <= n < |before| && id in Run(s0, before[..n]).slots {
        SlotsStay(s0, before, n, id);
      }
      assert (before + [step])[..|before|] == before;
      assert 0 <= n < |before| ==> (before + [step])[..n] == before[..n];
    }
  }

  /** Nothing of the allocation is being written. */
  predicate Quiet(k: Slot) {
    k.driver.Some? ==> k.driver.value.update.Idle?
  }

  /** Updates that do not overlap are all or nothing while their owner is not dropped: whenever none is
      in flight, channel and entry agree, and the store differs from them exactly when an abandoned save
      that landed, or a drop after a save, left another value there and no owner wrote since. A save
      that fails leaves all three as they were. */
  lemma UpdatesAreAllOrNothing(config: Config, limit: nat, steps: seq<Step>, id: Id)
    requires Serial(steps) && id in Run(Start(config, limit), steps).slots
    ensures var k := Run(Start(config, limit), steps).slots[id];
            k.entry.Some? && Quiet(k) ==>
              && k.channel == k.entry.value.allocation
              && (k.record != k.entry.value.allocation <==>
                  exists n, v :: StrandsLast(Start(config, limit), steps, id, n, v) && v != k.entry.value.allocation)
    ensures var s := Run(Start(config, limit), steps);
            var k, k' := s.slots[id], Next(s, Drive(id, SaveDone(false))).slots[id];
            k'.entry == k.entry && k'.channel == k.channel && k'.record == k.record
  {
    RunOwned(config, limit, steps);
    var s := Run(Start(config, limit), steps);
    var k := s.slots[id];
    assert Owned(id, k);
    if k.driver.Some? {
      FailedSave(k, !s.shutdown.NotStarted?);
    }
    if k.entry.Some? && Quiet(k) {
      forall v ensures k.stranded == Some(v) <==> exists n :: StrandsLast(Start(config, limit), steps, id, n, v) {
        StrandedExactly(config, limit, steps, id, v);
      }
    }
  }

  lemma FailedSave(k: Slot, bounded: bool)
    requires k.driver.Some?
    ensures var k' := Driven(k, SaveDone(false), bounded);
            k'.entry == k.entry && k'.channel == k.channel && k'.record == k.record
  {
  }

  // ---------------------------------------------------------------- success needs a cleanup

  /** A cleanup attempt of the allocation, under way in this state, succeeds. */
  predicate CleansUp(s: Sys, step: Step, id: Id) {
    && step == Drive(id, CleanupDone(true)) && id in s.slots && s.slots[id].driver.Some?
    && s.slots[id].driver.value.update.Idle? && s.slots[id].driver.value.phase.Attempting?
  }

  lemma NextCleaned(s: Sys, step: Step, id: Id)
    requires id in Next(s, step).slots && Next(s, step).slots[id].cleaned
    ensures (id in s.slots && s.slots[id].cleaned) || CleansUp(s, step, id)
  {
    if step.CreateCommit? {
      CommitKeys(s, step.tid, step.id, step.admitted, step.saveOk, step.now);
    } else if step.Drive? && step.id == id && id in s.slots && s.slots[id].driver.Some? && !s.slots[id].cleaned {
      DrivenCleaned(s.slots[id], step.event, !s.shutdown.NotStarted?);
    }
  }

  lemma DrivenCleaned(k: Slot, e: Event, bounded: bool)
    requires k.driver.Some? && Driven(k, e, bounded).cleaned && !k.cleaned
    ensures e == CleanupDone(true) && k.driver.value.update.Idle? && k.driver.value.phase.Attempting?
  {
  }

  /** An allocation is marked cleaned only by an attempt of its own that was under way. */
  lemma {:induction false} CleanedByCleanup(config: Config, limit: nat, steps: seq<Step>, id: Id)
    requires var s := Run(Start(config, limit), steps); id in s.slots && s.slots[id].cleaned
    ensures exists n :: 0 <= n < |steps| && CleansUp(Run(Start(config, limit), steps[..n]), steps[n], id)
  {
    var s0 := Start(config, limit);
    if steps != [] {
      var init, last := steps[..|steps| - 1], steps[|steps| - 1];
      NextCleaned(Run(s0, init), last, id);
      if !CleansUp(Run(s0, init), last, id) {
        CleanedByCleanup(config, limit, init, id);
        var n :| 0 <= n < |init| && CleansUp(Run(s0, init[..n]), init[n], id);
        assert init[..n] == steps[..n] && init[n] == steps[n];
      } else {
        assert CleansUp(Run(s0, steps[..|steps| - 1]), steps[|steps| - 1], id);
      }
    }
  }

  /** In every serial run, whatever fails, Completed or Cancelled stands in the store, the entry or
      the channel only if an attempt to clean up that allocation was under way earlier and
      succeeded. */
  lemma SuccessNeedsCleanup(config: Config, limit: nat, steps: seq<Step>, id: Id)
    requires Serial(steps)
    requires var s := Run(Start(config, limit), steps);
             id in s.slots &&
             (Succeeded(s.slots[id].record) || Succeeded(s.slots[id].channel) ||
              (s.slots[id].entry.Some? && Succeeded(s.slots[id].entry.value.allocation)))
    ensures exists n :: 0 <= n < |steps| && CleansUp(Run(Start(config, limit), steps[..n]), steps[n], id)
  {
    RunOwned(config, limit, steps);
    assert Owned(id, Run(Start(config, limit), steps).slots[id]);
    CleanedByCleanup(config, limit, steps, id);
  }

  // ---------------------------------------------------------------- machine names

  /** The configuration keeps this prefix and gives no profile to another repository. */
  ghost predicate Pinned(c: Config, prefix: string, owner: map<string, string>) {
    c.prefix == prefix && forall p :: p in c.profiles ==> p in owner && owner[p] == c.profiles[p]
  }

  ghost predicate PinnedRun(steps: seq<Step>, prefix: string, owner: map<string, string>) {
    forall i :: 0 <= i < |steps| && steps[i].Reload? ==> Pinned(steps[i].config, prefix, owner)
  }

  /** The allocation was requested under that prefix, by the repository that owns its profile. */
  predicate Named(k: Slot, prefix: string, owner: map<string, string>) {
    k.prefix == prefix && k.channel.request.profile in owner &&
        owner[k.channel.request.profile] == k.channel.request.repository
  }

  ghost predicate AllNamed(s: Sys, prefix: string, owner: map<string, string>) {
    && Pinned(s.config, prefix, owner)
    && (forall t :: t in s.creates ==> Pinned(s.creates[t].config, prefix, owner) &&
                                       Authorized(s.creates[t].config, s.creates[t].request))
    && (forall id :: id in s.slots ==> Named(s.slots[id], prefix, owner))
  }

  lemma NextNamed(s: Sys, step: Step, prefix: string, owner: map<string, string>)
    requires AllGenuine(s.slots) && AllNamed(s, prefix, owner)
    requires step.Reload? ==> Pinned(step.config, prefix, owner)
    ensures AllNamed(Next(s, step), prefix, owner)
  {
    NextGenuine(s, step);
    NamedStay(s.slots, Next(s, step).slots, prefix, owner);
    if step.CreateCommit? {
      CommitNamed(s, step.tid, step.id, step.admitted, step.saveOk, step.now, prefix, owner);
    } else {
      NextKeys(s, step);
    }
    CreatesNamed(s, step, prefix, owner);
  }

  lemma NamedStay(slots: map<Id, Slot>, slots': map<Id, Slot>, prefix: string, owner: map<string, string>)
    requires SameOnes(slots, slots') && forall id :: id in slots ==> Named(slots[id], prefix, owner)
    ensures forall id :: id in slots ==> id in slots' && Named(slots'[id], prefix, owner)
  {
    forall id | id in slots ensures Named(slots'[id], prefix, owner) {
      assert Named(slots[id], prefix, owner);
    }
  }

  lemma CommitNamed(
    s: Sys, tid: nat, id: Id, admitted: bool, saveOk: bool, now: nat, prefix: string, owner: map<string, string>)
    requires AllNamed(s, prefix, owner)
    ensures var s' := Commit(s, tid, id, admitted, saveOk, now);
            forall i :: i in s'.slots && i !in s.slots ==> Named(s'.slots[i], prefix, owner)
  {
    CommitKeys(s, tid, id, admitted, saveOk, now);
  }

  lemma CreatesNamed(s: Sys, step: Step, prefix: string, owner: map<string, string>)
    requires AllNamed(s, prefix, owner)
    requires step.Reload? ==> Pinned(step.config, prefix, owner)
    ensures var s' := Next(s, step);
            Pinned(s'.config, prefix, owner) &&
            forall t :: t in s'.creates ==> Pinned(s'.creates[t].config, prefix, owner) &&
                                            Authorized(s'.creates[t].config, s'.creates[t].request)
  {
    match step
    case Reload(config) =>
    case CreateBegin(tid, r) =>
    case CreateCommit(tid, id, admitted, saveOk, now) => CommitTakes(s, tid, id, admitted, saveOk, now);
    case _ => CreatesStand(s, step);
  }

  lemma CommitTakes(s: Sys, tid: nat, id: Id, admitted: bool, saveOk: bool, now: nat)
    ensures var s' := Commit(s, tid, id, admitted, saveOk, now);
            s'.config == s.config && s'.creates == s.creates - {tid}
  {
  }

  lemma CreatesStand(s: Sys, step: Step)
    requires !step.Reload? && !step.CreateBegin? && !step.CreateCommit?
    ensures Next(s, step).config == s.config && Next(s, step).creates == s.creates
  {
  }

  lemma {:induction false} RunNamed(config: Config, limit: nat, steps: seq<Step>, prefix: string,
                                    owner: map<string, string>)
    requires Pinned(config, prefix, owner) && PinnedRun(steps, prefix, owner)
    ensures AllNamed(Run(Start(config, limit), steps), prefix, owner)
  {
    if steps != [] {
      RunNamed(config, limit, steps[..|steps| - 1], prefix, owner);
      RunGenuine(config, limit, steps[..|steps| - 1]);
      NextNamed(Run(Start(config, limit), steps[..|steps| - 1]), steps[|steps| - 1], prefix, owner);
    }
  }

  /** In every serial run whose reloads keep the prefix and each profile's repository, no two live
      allocations share a machine name. */
  lemma NoSharedMachine(config: Config, limit: nat, steps: seq<Step>, prefix: string, owner: map<string, string>,
                        i: Id, j: Id)
    requires Serial(steps) && Pinned(config, prefix, owner) && PinnedRun(steps, prefix, owner)
    requires var slots := Run(Start(config, limit), steps).slots;
             i in slots && j in slots && Live(slots[i]) && Live(slots[j]) &&
             slots[i].entry.value.allocation.vmName == slots[j].entry.value.allocation.vmName
    ensures i == j
  {
    var slots := Run(Start(config, limit), steps).slots;
    OneLivePerAttempt(config, limit, steps);
    RunNamed(config, limit, steps, prefix, owner);
    RunGenuine(config, limit, steps);
    SharedMachineExactly(config, limit, steps, i, j);
    assert Named(slots[i], prefix, owner) && Named(slots[j], prefix, owner);
    assert Genuine(i, slots[i]) && Genuine(j, slots[j]);
    SameSuffix(prefix, slots[i].channel.request.profile, slots[j].channel.request.profile);
    assert Rivals(slots[i], slots[j]);
  }

  lemma SameSuffix(prefix: string, a: string, b: string)
    requires prefix + a == prefix + b
    ensures a == b
  {
    assert a == (prefix + a)[|prefix|..] && b == (prefix + b)[|prefix|..];
  }

  // ---------------------------------------------------------------- reloads under live work

  /** A request that is admitted and saved. */
  function OneRequest(id: Id, r: Request): seq<Step> {
    [CreateBegin(id, r)] + [CreateCommit(id, id, true, true, 0)]
  }

  /** An admitted request adds its allocation and leaves live ones alone. */
  lemma RequestRun(s: Sys, id: Id, r: Request)
    requires s.shutdown.NotStarted? && id !in s.slots && id !in s.creates && !HasPredecessor(s.slots, r)
    requires Authorized(s.config, r) && VmNames.VmName(s.config.prefix, r).Some?
    ensures var s' := Run(s, OneRequest(id, r));
            s'.slots.Keys == s.slots.Keys + {id} && s' == s.(slots := s'.slots) &&
            s'.slots[id] == NewSlot(id, r, s.config.prefix, 0) &&
            forall i :: i in s.slots && Live(s.slots[i]) ==> s'.slots[i] == s.slots[i]
  {
    RunConcat(s, [CreateBegin(id, r)], [CreateCommit(id, id, true, true, 0)]);
    RunOne(s, CreateBegin(id, r));
    RunOne(Begin(s, id, r), CreateCommit(id, id, true, true, 0));
    BegunCommit(s, id, r);
    FirstCreate(s, Pending(r, s.config), id);
  }

  /** The commit of a request just begun is the creation. */
  lemma BegunCommit(s: Sys, id: Id, r: Request)
    requires id !in s.creates && Authorized(s.config, r)
    ensures Commit(Begin(s, id, r), id, id, true, true, 0) == Created(s, Pending(r, s.config), id, true, true, 0)
  {
    var t := Begin(s, id, r);
    assert t.creates - {id} == s.creates;
    assert t.(creates := s.creates) == s;
  }

  /** Two requests with a reload between them. */
  function ReloadedRun(r: Request, c: Config, t: Request): seq<Step> {
    OneRequest(0, r) + [Reload(c)] + OneRequest(1, t)
  }

  lemma FirstCreate(s: Sys, p: Pending, id: Id)
    requires s.shutdown.NotStarted? && id !in s.slots && !HasPredecessor(s.slots, p.request)
    requires VmNames.VmName(p.config.prefix, p.request).Some?
    ensures var s' := Created(s, p, id, true, true, 0);
            s'.slots.Keys == s.slots.Keys + {id} && s' == s.(slots := s'.slots) &&
            s'.slots[id] == NewSlot(id, p.request, p.config.prefix, 0) &&
            forall i :: i in s.slots && Live(s.slots[i]) ==> s'.slots[i] == s.slots[i]
  {
    var k := NewSlot(id, p.request, p.config.prefix, 0);
    TrimmedOnlyFinished(s.slots[id := k], s.limit);
    assert Live(k);
  }

  /** The first request and the reload: one new allocation, and the new configuration. */
  lemma RequestThenReload(b: Config, limit: nat, r: Request, c: Config) returns (s: Sys)
    requires Authorized(b, r) && VmNames.VmName(b.prefix, r).Some?
    ensures s == Run(Start(b, limit), OneRequest(0, r) + [Reload(c)])
    ensures s == Start(c, limit).(slots := map[0 := NewSlot(0, r, b.prefix, 0)])
  {
    RequestRun(Start(b, limit), 0, r);
    var one := Run(Start(b, limit), OneRequest(0, r));
    RunConcat(Start(b, limit), OneRequest(0, r), [Reload(c)]);
    RunOne(one, Reload(c));
    s := one.(config := c);
    assert one.slots == map[0 := NewSlot(0, r, b.prefix, 0)];
  }

  lemma ReloadedRunSlots(b: Config, limit: nat, r: Request, c: Config, t: Request)
    requires Authorized(b, r) && Authorized(c, t) && !SameAttempt(r, t)
    requires VmNames.VmName(b.prefix, r).Some? && VmNames.VmName(c.prefix, t).Some?
    ensures var slots := Run(Start(b, limit), ReloadedRun(r, c, t)).slots;
            slots.Keys == {0, 1} &&
            slots[0] == NewSlot(0, r, b.prefix, 0) &&
            slots[1] == NewSlot(1, t, c.prefix, 0)
  {
    var s := RequestThenReload(b, limit, r, c);
    RunConcat(Start(b, limit), OneRequest(0, r) + [Reload(c)], OneRequest(1, t));
    RequestRun(s, 1, t);
  }

  /** Changing the prefix while an allocation is live can hand out its name again, to another profile. */
  lemma ChangedPrefixSharesMachine(limit: nat)
    ensures var b := Config("a-", map["b-c" := "o/a"]);
            var r, c, t := Request("b-c", "o/a", 1, 1), Config("a-b-", map["c" := "o/b"]), Request("c", "o/b", 1, 1);
            var slots := Run(Start(b, limit), ReloadedRun(r, c, t)).slots;
            0 in slots && 1 in slots && Live(slots[0]) && Live(slots[1]) &&
            slots[0].entry.value.allocation.vmName == slots[1].entry.value.allocation.vmName
  {
    var r, t := Request("b-c", "o/a", 1, 1), Request("c", "o/b", 1, 1);
    assert "o/a"[2] != "o/b"[2];
    assert VmNames.Decimal(1) == ['1'];
    assert VmNames.VmText("a-", r) == "a-b-c-1-1";
    assert VmNames.VmText("a-b-", t) == "a-b-c-1-1";
    ReloadedRunSlots(Config("a-", map["b-c" := "o/a"]), limit, r, Config("a-b-", map["c" := "o/b"]), t);
  }

  /** Repointing a profile at another repository while its allocation is live hands out one name twice. */
  lemma RepointedProfileSharesMachine(limit: nat)
    ensures var b := Config("vm-", map["p" := "o/a"]);
            var slots := Run(Start(b, limit), ReloadedRun(Request("p", "o/a", 1, 1), Config("vm-", map["p" := "o/b"]),
                                                          Request("p", "o/b", 1, 1))).slots;
            0 in slots && 1 in slots && Live(slots[0]) && Live(slots[1]) &&
            slots[0].entry.value.allocation.vmName == slots[1].entry.value.allocation.vmName
  {
    var r, t := Request("p", "o/a", 1, 1), Request("p", "o/b", 1, 1);
    assert "o/a"[2] != "o/b"[2];
    assert VmNames.Decimal(1) == ['1'];
    assert VmNames.VmText("vm-", r) == "vm-p-1-1";
    assert VmNames.VmText("vm-", t) == "vm-p-1-1";
    ReloadedRunSlots(Config("vm-", map["p" := "o/a"]), limit, r, Config("vm-", map["p" := "o/b"]), t);
  }
}
