/** Who is let in: every allocation was asked for by a valid request that a configuration in force
    authorized, and two attempts of one run have an allocation each.
    crates/flanforge-manager/src/service.rs. */
module MachineAdmission {
  import opened Base
  import opened Allocations
  import opened Machine
  import opened MachineIdentity
  import opened MachineRuns
  import History
  import VmNames

  // ---------------------------------------------------------------- authorized by a configuration in force

  /** The configuration was the manager's at some point of the run. */
  ghost predicate InForce(s: Sys, steps: seq<Step>, c: Config) {
    exists n :: 0 <= n <= |steps| && Run(s, steps[..n]).config == c
  }

  lemma InForceLonger(s: Sys, steps: seq<Step>, step: Step, c: Config)
    requires InForce(s, steps, c)
    ensures InForce(s, steps + [step], c)
  {
    var n :| 0 <= n <= |steps| && Run(s, steps[..n]).config == c;
    assert (steps + [step])[..n] == steps[..n];
  }

  lemma InForceNow(s: Sys, steps: seq<Step>)
    ensures InForce(s, steps, Run(s, steps).config)
  {
    assert steps[..|steps|] == steps;
  }

  /** A request under way was valid and authorized by the configuration it read, which was in force. */
  ghost predicate Admitted(s0: Sys, steps: seq<Step>, p: Pending) {
    && InForce(s0, steps, p.config)
    && p.request.profile in p.config.profiles && p.config.profiles[p.request.profile] == p.request.repository
    && VmNames.ValidRequest(p.request)
  }

  /** Whoever is resident came in that way. */
  ghost predicate LetIn(s0: Sys, steps: seq<Step>, k: Slot) {
    exists c :: Admitted(s0, steps, Pending(k.channel.request, c)) && c.prefix == k.prefix
  }

  ghost predicate AllLetIn(s0: Sys, steps: seq<Step>) {
    var s := Run(s0, steps);
    && (forall tid :: tid in s.creates ==> Admitted(s0, steps, s.creates[tid]))
    && (forall id :: id in s.slots ==> LetIn(s0, steps, s.slots[id]))
  }

  lemma AdmittedLonger(s0: Sys, steps: seq<Step>, step: Step, p: Pending)
    requires Admitted(s0, steps, p)
    ensures Admitted(s0, steps + [step], p)
  {
    InForceLonger(s0, steps, step, p.config);
  }

  lemma LetInLonger(s0: Sys, steps: seq<Step>, step: Step, k: Slot, k': Slot)
    requires LetIn(s0, steps, k) && k'.channel.request == k.channel.request && k'.prefix == k.prefix
    ensures LetIn(s0, steps + [step], k')
  {
    var c :| Admitted(s0, steps, Pending(k.channel.request, c)) && c.prefix == k.prefix;
    AdmittedLonger(s0, steps, step, Pending(k.channel.request, c));
  }

  /** A request under way was so before, or was just authorized. */
  lemma PendingFrom(s: Sys, step: Step, tid: nat)
    requires tid in Next(s, step).creates
    ensures (tid in s.creates && Next(s, step).creates[tid] == s.creates[tid]) ||
            (step == CreateBegin(tid, step.request) && Authorized(s.config, step.request) &&
             Next(s, step).creates[tid] == Pending(step.request, s.config))
  {
    if step.CreateCommit? {
      CommitCreates(s, step.tid, step.id, step.admitted, step.saveOk, step.now);
    }
  }

  lemma CommitCreates(s: Sys, tid: nat, id: Id, admitted: bool, saveOk: bool, now: nat)
    ensures Commit(s, tid, id, admitted, saveOk, now).creates == s.creates - {tid}
  {
    if tid !in s.creates {
      assert s.creates - {tid} == s.creates;
    }
  }

  lemma CreatesLetIn(s0: Sys, steps: seq<Step>, step: Step, tid: nat)
    requires AllLetIn(s0, steps) && tid in Next(Run(s0, steps), step).creates
    ensures Admitted(s0, steps + [step], Next(Run(s0, steps), step).creates[tid])
  {
    var s := Run(s0, steps);
    PendingFrom(s, step, tid);
    InForceNow(s0, steps);
    AdmittedLonger(s0, steps, step, Next(s, step).creates[tid]);
  }

  lemma SlotLetIn(s0: Sys, steps: seq<Step>, step: Step, id: Id)
    requires AllLetIn(s0, steps) && AllGenuine(Run(s0, steps).slots) && id in Next(Run(s0, steps), step).slots
    ensures LetIn(s0, steps + [step], Next(Run(s0, steps), step).slots[id])
  {
    var s := Run(s0, steps);
    var s' := Next(s, step);
    NextGenuine(s, step);
    if id in s.slots {
      LetInLonger(s0, steps, step, s.slots[id], s'.slots[id]);
    } else {
      NextKeys(s, step);
      CommitKeys(s, step.tid, step.id, step.admitted, step.saveOk, step.now);
      var p := s.creates[step.tid];
      AdmittedLonger(s0, steps, step, p);
      assert p == Pending(s'.slots[id].channel.request, p.config);
    }
  }

  lemma {:induction false} RunLetIn(config: Config, limit: nat, steps: seq<Step>)
    ensures AllLetIn(Start(config, limit), steps)
  {
    if steps != [] {
      var s0, before, step := Start(config, limit), steps[..|steps| - 1], steps[|steps| - 1];
      RunLetIn(config, limit, before);
      RunGenuine(config, limit, before);
      assert steps == before + [step];
      forall tid | tid in Run(s0, steps).creates ensures Admitted(s0, steps, Run(s0, steps).creates[tid]) {
        CreatesLetIn(s0, before, step, tid);
      }
      forall id | id in Run(s0, steps).slots ensures LetIn(s0, steps, Run(s0, steps).slots[id]) {
        SlotLetIn(s0, before, step, id);
      }
    }
  }

  /** In every run, however it reloads: the request of every allocation has a run and an attempt and a
      profile named as profiles are, and a configuration that was in force, the one the machine's name
      takes its prefix from, pins that profile to the repository that asked. */
  lemma NobodyComesInUnauthorized(config: Config, limit: nat, steps: seq<Step>, id: Id)
    requires id in Run(Start(config, limit), steps).slots
    ensures var k := Run(Start(config, limit), steps).slots[id];
            var r := k.channel.request;
            && 1 <= r.runId < 0x1_0000_0000_0000_0000 && 1 <= r.runAttempt < 0x1_0000_0000
            && 1 <= |r.profile| <= 32 && r.profile[0] != '-' && r.profile[0] != '_'
            && (forall c :: c in r.profile ==> 'a' <= c <= 'z' || '0' <= c <= '9' || c == '-' || c == '_')
            && k.channel.vmName == VmNames.VmText(k.prefix, r)
            && exists n :: 0 <= n <= |steps| &&
                 var c := Run(Start(config, limit), steps[..n]).config;
                 c.prefix == k.prefix && r.profile in c.profiles && c.profiles[r.profile] == r.repository
  {
    var s0 := Start(config, limit);
    RunLetIn(config, limit, steps);
    RunGenuine(config, limit, steps);
    var k := Run(s0, steps).slots[id];
    assert LetIn(s0, steps, k) && Genuine(id, k);
    var c :| Admitted(s0, steps, Pending(k.channel.request, c)) && c.prefix == k.prefix;
    var n :| 0 <= n <= |steps| && Run(s0, steps[..n]).config == c;
    forall x | x in k.channel.request.profile
      ensures 'a' <= x <= 'z' || '0' <= x <= '9' || x == '-' || x == '_'
    {
      var i :| 0 <= i < |k.channel.request.profile| && k.channel.request.profile[i] == x;
    }
  }

  // ---------------------------------------------------------------- the resident history

  /** After an insertion no finished allocation is resident beyond the limit: there are at most that many
      entries, or all of them are live. */
  lemma HistoryIsBounded(s: Sys, tid: nat, id: Id, admitted: bool, saveOk: bool, now: nat)
    requires id !in s.slots && id in Commit(s, tid, id, admitted, saveOk, now).slots
    ensures var t := Commit(s, tid, id, admitted, saveOk, now);
            |Entries(t.slots)| <= t.limit || forall i :: i in t.slots && t.slots[i].entry.Some? ==> Live(t.slots[i])
  {
    var p := s.creates[tid];
    var grown := s.slots[id := NewSlot(id, p.request, p.config.prefix, now)];
    TrimmedIsBounded(grown, s.limit);
  }

  lemma TrimmedIsBounded(slots: map<Id, Slot>, limit: nat)
    ensures var t := Trimmed(slots, limit);
            |Entries(t)| <= limit || forall i :: i in t && t[i].entry.Some? ==> Live(t[i])
  {
    var m, t := Entries(slots), Trimmed(slots, limit);
    var kept := History.Kept(m, m.Keys, limit);
    History.KeptIsPruning(m, m.Keys, limit);
    assert Entries(t).Keys == kept;
    assert |Entries(t)| == |Entries(t).Keys|;
    if |kept| > limit {
      var unfinished := m.Keys - History.Finished(m, m.Keys);
      History.SubsetSize(unfinished, kept);
      assert kept == unfinished;
    }
  }

  // ---------------------------------------------------------------- reruns

  /** A rerun while the first attempt is live gets an allocation of its own, on a machine of its own. */
  lemma RerunsAreSeparate(config: Config, limit: nat, r: Request, attempt: nat)
    requires attempt != r.runAttempt
    requires Authorized(config, r) && Authorized(config, r.(runAttempt := attempt))
    requires VmNames.VmName(config.prefix, r).Some?
    requires VmNames.VmName(config.prefix, r.(runAttempt := attempt)).Some?
    ensures var slots := Run(Start(config, limit), ReloadedRun(r, config, r.(runAttempt := attempt))).slots;
            && 0 in slots && 1 in slots && Live(slots[0]) && Live(slots[1])
            && slots[0].entry.value.allocation.request == r
            && slots[1].entry.value.allocation.request == r.(runAttempt := attempt)
            && slots[0].entry.value.allocation.vmName != slots[1].entry.value.allocation.vmName
  {
    var t := r.(runAttempt := attempt);
    SameAttemptIsEquality(r, t);
    ReloadedRunSlots(config, limit, r, config, t);
    VmNames.SharedVmName(config.prefix, r, config.prefix, t);
  }
}
