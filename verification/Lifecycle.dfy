/** The manager's operations as the source runs them, one call at a time, over a store and a
    backend that fail as an oracle says: crates/flanforge-manager/src: service.rs, state.rs,
    lifecycle.rs, teardown.rs and shutdown.rs. */
module Lifecycle {
  import opened Base
  import opened Allocations
  import Machine
  import History
  import VmNames

  datatype ManagerError = NotFound | Refused | StoreFailed | ShuttingDown | InvalidVmName

  /** What `create` answers: a new allocation or the live one of the same attempt. */
  datatype Creation = Creation(allocation: Allocation, isNew: bool)

  class AllocationManager {
    var entries: map<Id, Machine.Entry>
    var channels: map<Id, Allocation>
    var store: map<Id, Allocation>
    var leaked: seq<Machine.Leak>
    var closing: bool
    /** The allocations whose token was signalled. */
    var signalled: set<Id>
    const limit: nat
    /** Whether the n-th store write, and the n-th cleanup attempt, succeeds. */
    const saves: nat -> bool
    const cleanups: nat -> bool
    var saveAt: nat
    var cleanupAt: nat
    ghost var teardowns: nat

    ghost predicate Valid()
      reads this
    {
      Agree(entries, channels, store)
    }

    constructor (limit: nat, saves: nat -> bool, cleanups: nat -> bool)
      ensures Valid() && entries == map[] && store == map[] && leaked == [] && !closing
      ensures saveAt == 0 && cleanupAt == 0 && teardowns == 0
      ensures this.limit == limit && this.saves == saves && this.cleanups == cleanups
    {
      this.limit, this.saves, this.cleanups := limit, saves, cleanups;
      entries, channels, store, leaked := map[], map[], map[], [];
      closing, signalled, saveAt, cleanupAt, teardowns := false, {}, 0, 0, 0;
    }

    /** One store write. */
    method Save(a: Allocation) returns (ok: bool)
      modifies `store, `saveAt
      ensures saveAt == old(saveAt) + 1 && ok == saves(old(saveAt))
      ensures store == if ok then old(store)[a.id := a] else old(store)
    {
      ok := saves(saveAt);
      saveAt := saveAt + 1;
      if ok {
        store := store[a.id := a];
      }
    }

    /** Read, edit the copy, save it, and only then show it: a failed save is invisible. */
    method Update(id: Id, c: Change, now: nat) returns (r: Result<(), ManagerError>)
      requires Valid()
      modifies `entries, `channels, `store, `saveAt
      ensures Valid() && Others(old(entries), entries, id)
      ensures id !in old(entries) ==> r == Err(NotFound)
      ensures id in old(entries) && Applied(old(entries)[id].allocation, c, now).None? ==> r == Err(Refused)
      ensures id in old(entries) && Applied(old(entries)[id].allocation, c, now).Some? ==>
                saveAt == old(saveAt) + 1 && r == if saves(old(saveAt)) then Ok(()) else Err(StoreFailed)
      ensures r.Ok? ==>
                var e := old(entries)[id];
                entries == old(entries)[id := e.(allocation := Applied(e.allocation, c, now).value)]
      ensures r.Err? ==> entries == old(entries) && channels == old(channels) && store == old(store)
      ensures r == Err(NotFound) || r == Err(Refused) ==> saveAt == old(saveAt)
    {
      if id !in entries {
        return Err(NotFound);
      }
      var edited := Applied(entries[id].allocation, c, now);
      if edited.None? {
        return Err(Refused);
      }
      var ok := Save(edited.value);
      if !ok {
        return Err(StoreFailed);
      }
      OneChanged(entries, id, entries[id].(allocation := edited.value));
      entries := entries[id := entries[id].(allocation := edited.value)];
      channels := channels[id := edited.value];
      r := Ok(());
    }

    /** Brings unfinished work into Cleaning; anything at or past it is left alone. */
    method EnsureCleaning(id: Id, now: nat) returns (r: Result<(), ManagerError>)
      requires Valid()
      modifies `entries, `channels, `store, `saveAt
      ensures Valid()
      ensures Others(old(entries), entries, id) && entries.Keys == old(entries).Keys
      ensures if id in old(entries) && Machine.NeedsCleaning(old(entries)[id])
              then saveAt == old(saveAt) + 1 && r == (if saves(old(saveAt)) then Ok(()) else Err(StoreFailed)) &&
                   entries[id].allocation.state == (if r.Ok? then Cleaning else old(entries)[id].allocation.state) &&
                   Noted(old(entries)[id].allocation, entries[id].allocation, None)
              else saveAt == old(saveAt) && entries == old(entries) &&
                   r == (if id in entries then Ok(()) else Err(NotFound))
    {
      if id !in entries {
        return Err(NotFound);
      }
      if !Machine.NeedsCleaning(entries[id]) {
        return Ok(());
      }
      LifecycleIsMonotone(entries[id].allocation.state, Cleaning);
      r := Update(id, ToState(Cleaning), now);
    }

    /** One attempt under a shutdown deadline, three otherwise, stopping at the first success; a
        bounded failure is recorded as a leak. */
    method CleanupWithRetries(a: Allocation) returns (ok: bool)
      modifies `leaked, `cleanupAt
      ensures Attempts(cleanups, closing, old(cleanupAt), cleanupAt)
      ensures ok == cleanups(cleanupAt - 1)
      ensures !ok ==> cleanupAt == old(cleanupAt) + if closing then 1 else 3
      ensures forall i :: old(cleanupAt) <= i < cleanupAt - 1 ==> !cleanups(i)
      ensures leaked == if closing && !ok then Machine.WithLeak(old(leaked), a, Machine.CleanupFailed) else old(leaked)
    {
      var bounded := closing;
      var attempts := if bounded then 1 else 3;
      ok := false;
      var attempt := 0;
      while attempt < attempts
        invariant 0 <= attempt <= attempts && cleanupAt == old(cleanupAt) + attempt
        invariant forall i :: old(cleanupAt) <= i < cleanupAt ==> !cleanups(i)
        invariant leaked == old(leaked) && closing == bounded && !ok
      {
        ok := cleanups(cleanupAt);
        cleanupAt := cleanupAt + 1;
        if ok {
          return;
        }
        attempt := attempt + 1;
      }
      if bounded {
        RecordLeak(a);
      }
    }

    /** One entry per allocation, however often its teardown fails. */
    method RecordLeak(a: Allocation)
      modifies `leaked
      ensures leaked == Machine.WithLeak(old(leaked), a, Machine.CleanupFailed)
      ensures if exists i :: 0 <= i < |old(leaked)| && old(leaked)[i].id == a.id then leaked == old(leaked)
              else leaked == old(leaked) + [Machine.Leak(a.id, a.state, a.request.repository, a.vmName, a.vmCreated,
                                                         a.runnerId, Machine.CleanupFailed)]
    {
      var i := 0;
      while i < |leaked|
        invariant 0 <= i <= |leaked| && leaked == old(leaked)
        invariant forall j :: 0 <= j < i ==> leaked[j].id != a.id
      {
        if leaked[i].id == a.id {
          return;
        }
        i := i + 1;
      }
      leaked := leaked + [Machine.LeakOf(a, Machine.CleanupFailed)];
    }

    /** The record as it stands, or the caller's snapshot of it. */
    function Current(fallback: Allocation): (a: Allocation)
      reads this
    {
      if fallback.id in entries then entries[fallback.id].allocation else fallback
    }

    /** Teardown. Whatever the store and the backend do: work that is already finished is reported
        and left alone; otherwise cleanup runs, the last store write of the call decides between a
        terminal record and an error, and a state other than Failed is only written after a
        successful cleanup. The source's re-reads after cleanup find nothing new within one call;
        the state machine has them as steps of their own. */
    method EnsureTerminal(fallback: Allocation, requested: AllocationState, now: nat)
        returns (r: Result<AllocationState, ManagerError>)
      requires Valid() && IsTerminal(requested)
      modifies `entries, `channels, `store, `saveAt, `leaked, `cleanupAt
      ensures Valid() && Others(old(entries), entries, fallback.id)
      ensures old(Terminal(Current(fallback))) ==>
                r == Ok(old(Current(fallback)).state) && entries == old(entries) && saveAt == old(saveAt) &&
                cleanupAt == old(cleanupAt) && leaked == old(leaked)
      ensures !old(Terminal(Current(fallback))) ==>
                Attempts(cleanups, closing, old(cleanupAt), cleanupAt) &&
                (Machine.HasLeak(leaked, fallback.id) <==>
                 Machine.HasLeak(old(leaked), fallback.id) || (closing && !cleanups(cleanupAt - 1)))
      ensures !old(Terminal(Current(fallback))) && fallback.id !in old(entries) ==>
                r == Err(NotFound) && entries == old(entries) && saveAt == old(saveAt)
      ensures !old(Terminal(Current(fallback))) && fallback.id in old(entries) ==>
                0 < cleanupAt && Settled(old(Current(fallback)), requested, cleanups(cleanupAt - 1), r, old(saveAt))
    {
      var current := Refresh(fallback, now);
      if Terminal(current) {
        return Ok(current.state);
      }
      ghost var before := old(Current(fallback));
      assert before.id == current.id && Noted(before, current, None) && !Terminal(before);
      r := TearDown(current, requested, now);
      if current.id in entries {
        NotedTwice(before, current, entries[current.id].allocation);
      }
    }

    /** Enters Cleaning if it can, ignoring a failure, and reads the record again. */
    method Refresh(fallback: Allocation, now: nat) returns (current: Allocation)
      requires Valid()
      modifies `entries, `channels, `store, `saveAt
      ensures Valid() && Others(old(entries), entries, fallback.id) && entries.Keys == old(entries).Keys
      ensures current == Current(fallback) && current.id == fallback.id &&
          Terminal(current) == old(Terminal(Current(fallback)))
      ensures Terminal(current) || fallback.id !in entries ==>
                entries == old(entries) && saveAt == old(saveAt)
      ensures !Terminal(current) && fallback.id in entries ==>
                saveAt == old(saveAt) + if old(Current(fallback)).state.Cleaning? then 0 else 1
      ensures fallback.id in entries ==> Noted(old(Current(fallback)), current, None)
    {
      var ignored := EnsureCleaning(fallback.id, now);
      current := Current(fallback);
    }

    /** Teardown of work found unfinished. */
    method TearDown(current: Allocation, requested: AllocationState, now: nat)
        returns (r: Result<AllocationState, ManagerError>)
      requires Valid() && IsTerminal(requested) && (current.id in entries ==> !Terminal(entries[current.id].allocation))
      modifies `entries, `channels, `store, `saveAt, `leaked, `cleanupAt
      ensures Valid() && Others(old(entries), entries, current.id)
      ensures Attempts(cleanups, closing, old(cleanupAt), cleanupAt)
      ensures Machine.HasLeak(leaked, current.id) <==>
              Machine.HasLeak(old(leaked), current.id) || (closing && !cleanups(cleanupAt - 1))
      ensures current.id !in old(entries) ==> r == Err(NotFound) && entries == old(entries) && saveAt == old(saveAt)
      ensures current.id in old(entries) ==>
                old(saveAt) < saveAt && Ended(current.id, if cleanups(cleanupAt - 1) then requested else Failed, r)
      ensures current.id in old(entries) ==>
                Noted(old(entries)[current.id].allocation, entries[current.id].allocation,
                      if Exhausted(old(saveAt)) then Some(CleanupExhausted) else None)
    {
      var clean := CleanAndNote(current, now);
      r := Conclude(current.id, if clean then requested else Failed, now);
    }

    /** Cleanup, and the note an exhausted one leaves on the record. */
    method CleanAndNote(current: Allocation, now: nat) returns (clean: bool)
      requires Valid()
      modifies `entries, `channels, `store, `saveAt, `leaked, `cleanupAt
      ensures Valid() && Others(old(entries), entries, current.id) && entries.Keys == old(entries).Keys
      ensures current.id in entries ==>
          entries[current.id].allocation.state == old(entries)[current.id].allocation.state
      ensures Attempts(cleanups, closing, old(cleanupAt), cleanupAt) && clean == cleanups(cleanupAt - 1)
      ensures Machine.HasLeak(leaked, current.id) <==> Machine.HasLeak(old(leaked), current.id) || (closing && !clean)
      ensures saveAt == old(saveAt) + if !clean && current.id in entries then 1 else 0
      ensures current.id !in entries ==> entries == old(entries)
      ensures current.id in entries ==>
                Noted(old(entries)[current.id].allocation, entries[current.id].allocation,
                      if !clean && saves(old(saveAt)) then Some(CleanupExhausted) else None)
    {
      clean := CleanupWithRetries(current);
      LeakKnown(old(leaked), leaked, current, closing && !clean);
      if !clean {
        var noted := Update(current.id, SetError(CleanupExhausted), now);
      }
    }

    /** After cleanup: enter Cleaning if the first attempt to could not, then the terminal state. */
    method Conclude(id: Id, terminal: AllocationState, now: nat) returns (r: Result<AllocationState, ManagerError>)
      requires Valid() && IsTerminal(terminal) && (id in entries ==> !Terminal(entries[id].allocation))
      modifies `entries, `channels, `store, `saveAt
      ensures Valid() && Others(old(entries), entries, id)
      ensures id !in old(entries) ==> r == Err(NotFound) && entries == old(entries) && saveAt == old(saveAt)
      ensures id in old(entries) ==> old(saveAt) < saveAt && Ended(id, terminal, r)
      ensures id in old(entries) ==> Noted(old(entries)[id].allocation, entries[id].allocation, None)
    {
      var cleaning := EnsureCleaning(id, now);
      if cleaning.Err? {
        return Err(cleaning.error);
      }
      r := WriteTerminal(id, terminal, now);
    }

    method WriteTerminal(id: Id, terminal: AllocationState, now: nat) returns (r: Result<AllocationState, ManagerError>)
      requires Valid() && IsTerminal(terminal) && id in entries && entries[id].allocation.state.Cleaning?
      modifies `entries, `channels, `store, `saveAt
      ensures Valid() && Others(old(entries), entries, id) && saveAt == old(saveAt) + 1 && Ended(id, terminal, r)
      ensures Noted(old(entries)[id].allocation, entries[id].allocation, None)
    {
      var closed := Update(id, ToState(terminal), now);
      if closed.Err? {
        return Err(closed.error);
      }
      r := Ok(terminal);
    }

    /** The result is Ok exactly when the last write went through, and then it names the state now
        recorded; otherwise the entry is still unfinished. */
    ghost predicate Ended(id: Id, terminal: AllocationState, r: Result<AllocationState, ManagerError>)
      reads this
    {
      && id in entries && 0 < saveAt
      && (r.Ok? <==> saves(saveAt - 1))
      && (r.Ok? ==> r.value == terminal == entries[id].allocation.state)
      && (r.Err? ==> r.error == StoreFailed && !Terminal(entries[id].allocation))
    }

    /** The cleanup failed to the end, and the note of that was stored by the write at `at`. */
    ghost predicate Exhausted(at: nat)
      reads this
    {
      0 < cleanupAt && !cleanups(cleanupAt - 1) && saves(at)
    }

    /** What a worker's teardown left of an entry that was unfinished. */
    ghost predicate TornDown(id: Id, cancelled: bool, ok: bool)
      reads this
    {
      && id in entries && 0 < saveAt && 0 < cleanupAt
      && (Terminal(entries[id].allocation) <==> saves(saveAt - 1))
      && (saves(saveAt - 1) ==>
          var clean, state := cleanups(cleanupAt - 1), entries[id].allocation.state;
          && (state.Cancelled? <==> clean && cancelled)
          && (state.Completed? <==> clean && ok && !cancelled)
          && (state.Failed? <==> !clean || (!ok && !cancelled)))
    }

    /** The outcome for an entry that was unfinished. Work that was not yet Cleaning sees at least two
        writes, so a failure of the first one alone never costs the terminal record. An exhausted cleanup
        is on the record if its own write went through, and nothing else about the guest has changed. */
    ghost predicate Settled(before: Allocation, requested: AllocationState, clean: bool,
                            r: Result<AllocationState, ManagerError>, from: nat)
      reads this
    {
      && from + (if before.state.Cleaning? then 1 else 2) <= saveAt
      && Ended(before.id, if clean then requested else Failed, r)
      && Noted(before, entries[before.id].allocation,
               if !clean && saves(from + if before.state.Cleaning? then 0 else 1) then Some(CleanupExhausted) else None)
    }

    /** The requested state of a worker that ended: a signalled token outweighs its result. */
    method FinishWorker(a: Allocation, cancelled: bool, ok: bool, now: nat)
        returns (r: Result<AllocationState, ManagerError>)
      requires Valid()
      modifies `entries, `channels, `store, `saveAt, `leaked, `cleanupAt
      ensures Valid() && Others(old(entries), entries, a.id)
      ensures r.Ok? ==> IsTerminal(r.value)
      ensures a.id in old(entries) && !Terminal(old(entries)[a.id].allocation) ==>
                && Attempts(cleanups, closing, old(cleanupAt), cleanupAt)
                && 0 < saveAt && (r.Ok? <==> saves(saveAt - 1)) && a.id in entries
                && (r.Err? ==> !Terminal(entries[a.id].allocation))
                && (r.Ok? ==>
                    && r.value == entries[a.id].allocation.state
                    && (r.value.Cancelled? <==> cleanups(cleanupAt - 1) && cancelled)
                    && (r.value.Completed? <==> cleanups(cleanupAt - 1) && ok && !cancelled)
                    && (r.value.Failed? <==> !cleanups(cleanupAt - 1) || (!ok && !cancelled)))
      ensures a.id in old(entries) && !Terminal(old(entries)[a.id].allocation) ==>
                var at := old(saveAt) + if old(entries)[a.id].allocation.state.Cleaning? then 0 else 1;
                Noted(old(entries)[a.id].allocation, entries[a.id].allocation,
                      if Exhausted(at) then Some(CleanupExhausted) else None)
    {
      r := EnsureTerminal(a, if cancelled then Cancelled else if ok then Completed else Failed, now);
    }

    method ReleaseSupervision(id: Id)
      requires Valid()
      modifies `entries
      ensures Valid() && Others(old(entries), entries, id) && entries.Keys == old(entries).Keys
      ensures id in entries ==> !entries[id].supervised && entries[id].allocation == old(entries)[id].allocation
    {
      if id in entries {
        OneChanged(entries, id, entries[id].(supervised := false));
        entries := entries[id := entries[id].(supervised := false)];
      }
    }

    /** The teardown a worker's guard starts. */
    method RunTeardown(a: Allocation, cancelled: bool, ok: bool, now: nat)
      requires Valid()
      modifies this
      ensures Valid() && teardowns == old(teardowns) + 1 && closing == old(closing)
      ensures Others(old(entries), entries, a.id)
      ensures a.id in entries ==> !entries[a.id].supervised
      ensures a.id in old(entries) && !Terminal(old(entries)[a.id].allocation) ==>
                && Attempts(cleanups, closing, old(cleanupAt), cleanupAt) && TornDown(a.id, cancelled, ok)
                && 0 < saveAt && a.id in entries
                && (saves(saveAt - 1) ==>
                    var clean, state := cleanups(cleanupAt - 1), entries[a.id].allocation.state;
                    && (state.Cancelled? <==> clean && cancelled)
                    && (state.Completed? <==> clean && ok && !cancelled)
                    && (state.Failed? <==> !clean || (!ok && !cancelled)))
      ensures a.id in old(entries) && !Terminal(old(entries)[a.id].allocation) ==>
                var at := old(saveAt) + (if ok then 0 else 1) +
                          (if old(entries)[a.id].allocation.state.Cleaning? then 0 else 1);
                Noted(old(entries)[a.id].allocation, entries[a.id].allocation,
                      if Exhausted(at) then Some(CleanupExhausted)
                      else if !ok && saves(old(saveAt)) then Some(WorkerStopped)
                      else None)
    {
      teardowns := teardowns + 1;
      NoteExit(a.id, ok, now);
      FinishAndRelease(a, cancelled, ok, now);
    }

    method FinishAndRelease(a: Allocation, cancelled: bool, ok: bool, now: nat)
      requires Valid()
      modifies `entries, `channels, `store, `saveAt, `leaked, `cleanupAt
      ensures Valid() && Others(old(entries), entries, a.id)
      ensures a.id in entries ==> !entries[a.id].supervised
      ensures a.id in old(entries) && !Terminal(old(entries)[a.id].allocation) ==>
                Attempts(cleanups, closing, old(cleanupAt), cleanupAt) && TornDown(a.id, cancelled, ok)
      ensures a.id in old(entries) && !Terminal(old(entries)[a.id].allocation) ==>
                var at := old(saveAt) + if old(entries)[a.id].allocation.state.Cleaning? then 0 else 1;
                Noted(old(entries)[a.id].allocation, entries[a.id].allocation,
                      if Exhausted(at) then Some(CleanupExhausted) else None)
    {
      var r := FinishWorker(a, cancelled, ok, now);
      ReleaseSupervision(a.id);
    }

    /** A worker's failure is noted on its record, if the store lets it. */
    method NoteExit(id: Id, ok: bool, now: nat)
      requires Valid()
      modifies `entries, `channels, `store, `saveAt
      ensures Valid() && Others(old(entries), entries, id) && entries.Keys == old(entries).Keys
      ensures id in entries ==>
                && saveAt == old(saveAt) + (if ok then 0 else 1)
                && entries[id].allocation.state == old(entries)[id].allocation.state
                && Noted(old(entries)[id].allocation, entries[id].allocation,
                         if !ok && saves(old(saveAt)) then Some(WorkerStopped) else None)
    {
      if !ok {
        var noted := Update(id, SetError(WorkerStopped), now);
      }
    }

    /** The live allocation of the same attempt, if there is one. */
    method Idempotent(r: Request) returns (existing: Option<Id>)
      ensures existing.Some? ==>
                && existing.value in entries && !Terminal(entries[existing.value].allocation)
                && var o := entries[existing.value].allocation.request;
                   o.repository == r.repository && o.runId == r.runId && o.runAttempt == r.runAttempt &&
                   o.profile == r.profile
      ensures existing.None? ==> forall id :: id in entries && !Terminal(entries[id].allocation) ==>
                var o := entries[id].allocation.request;
                !(o.repository == r.repository && o.runId == r.runId && o.runAttempt == r.runAttempt &&
                  o.profile == r.profile)
    {
      var left := entries.Keys;
      while left != {}
        invariant left <= entries.Keys
        invariant forall id :: id in entries && id !in left && !Terminal(entries[id].allocation) ==>
                    !SameAttempt(entries[id].allocation.request, r)
        decreases |left|
      {
        var id :| id in left;
        if !Terminal(entries[id].allocation) && SameAttempt(entries[id].allocation.request, r) {
          return Some(id);
        }
        left := left - {id};
      }
      existing := None;
    }

    /** The locked section of `create`: a closing manager refuses, a live predecessor is returned
        unchanged, and otherwise the record is saved before it is inserted and history trimmed. */
    method Create(r: Request, prefix: string, id: Id, now: nat) returns (c: Result<Creation, ManagerError>)
      requires Valid() && id !in entries && id !in channels
      modifies `entries, `channels, `store, `saveAt
      ensures Valid()
      ensures c == Err(ShuttingDown) <==> closing
      ensures c.Ok? && !c.value.isNew <==>
              && !closing
              && exists i :: i in old(entries) && !Terminal(old(entries)[i].allocation) &&
                   var o := old(entries)[i].allocation.request;
                   o.repository == r.repository && o.runId == r.runId && o.runAttempt == r.runAttempt &&
                   o.profile == r.profile
      ensures !closing && (c.Err? || c.value.isNew) ==>
                if VmNames.VmName(prefix, r).None? then c == Err(InvalidVmName)
                else if !saves(old(saveAt)) then c == Err(StoreFailed)
                else c.Ok? && c.value.isNew
      ensures c.Err? || !c.value.isNew ==> entries == old(entries) && store == old(store)
      ensures c.Ok? && !c.value.isNew ==>
                var a := c.value.allocation;
                && a.id in entries && entries[a.id].allocation == a && !Terminal(a)
                && a.request.repository == r.repository && a.request.runId == r.runId
                && a.request.runAttempt == r.runAttempt && a.request.profile == r.profile
      ensures c.Ok? && c.value.isNew ==>
                && c.value.allocation.id == id
                && c.value.allocation.request == r && c.value.allocation.state.Requested?
                && !c.value.allocation.vmCreated && c.value.allocation.runnerId.None? && c.value.allocation.error.None?
                && c.value.allocation.createdAt == c.value.allocation.updatedAt == now
                && VmNames.VmName(prefix, r) == Some(c.value.allocation.vmName)
                && Trimmed(old(entries)[id := Machine.Entry(c.value.allocation, true, false)], entries, limit)
    {
      if closing {
        return Err(ShuttingDown);
      }
      var existing := Idempotent(r);
      if existing.Some? {
        return Ok(Creation(entries[existing.value].allocation, false));
      }
      var name := VmNames.VmName(prefix, r);
      if name.None? {
        return Err(InvalidVmName);
      }
      var a := NewAllocation(id, r, name.value, now);
      var ok := SaveAndInsert(a);
      if !ok {
        return Err(StoreFailed);
      }
      c := Ok(Creation(a, true));
    }

    /** The record is durable before anyone can see it. */
    method SaveAndInsert(a: Allocation) returns (ok: bool)
      requires Valid() && a.id !in entries && a.id !in channels && !Terminal(a)
      modifies `entries, `channels, `store, `saveAt
      ensures Valid() && ok == saves(old(saveAt))
      ensures ok ==> Trimmed(old(entries)[a.id := Machine.Entry(a, true, false)], entries, limit)
      ensures ok ==> store == old(store)[a.id := a]
      ensures !ok ==> entries == old(entries) && store == old(store)
    {
      ok := Save(a);
      if ok {
        Insert(a);
      }
    }

    /** Files the new record with a fresh channel and trims the resident history. */
    method Insert(a: Allocation)
      requires Valid() && a.id !in entries && a.id !in channels && a.id in store && store[a.id] == a && !Terminal(a)
      modifies `entries, `channels
      ensures Valid()
      ensures Trimmed(old(entries)[a.id := Machine.Entry(a, true, false)], entries, limit)
    {
      channels := channels[a.id := a];
      var grown := entries[a.id := Machine.Entry(a, true, false)];
      var m := Resident(grown);
      var kept := Prune(m);
      var resident := map i | i in grown && i in kept :: grown[i];
      KeptIsTrimmed(grown, limit, kept);
      FewerAgree(grown, resident, channels, store);
      entries := resident;
    }

    method Prune(m: map<Id, Allocation>) returns (kept: map<Id, Allocation>)
      requires History.Keyed(m)
      ensures kept == History.Restricted(m, History.Kept(m, m.Keys, limit))
    {
      kept := History.PruneTerminalHistory(m, limit);
    }

    /** The entries as the state machine has them, with their tokens. */
    ghost function Slots(): map<Id, Machine.Slot>
      requires Valid()
      reads this
    {
      SlotsOf(entries, channels, store, signalled)
    }

    /** The locked section of `shutdown`: admission closes, and every live entry with an owner is noted
        once and its token signalled. */
    method Close() returns (awaited: seq<Id>)
      requires Valid()
      modifies `closing, `signalled
      ensures Valid() && closing
      ensures Machine.Enumerates(awaited, old(Slots())) && Slots() == Machine.Signalled(old(Slots()), awaited)
      ensures forall i, j :: 0 <= i < j < |awaited| ==> awaited[i] != awaited[j]
      ensures forall id :: id in awaited <==>
                && id in entries
                && !entries[id].allocation.state.Completed? && !entries[id].allocation.state.Failed?
                && !entries[id].allocation.state.Cancelled?
                && (entries[id].supervised || entries[id].terminalizing)
      ensures signalled == old(signalled) + set id | id in awaited
    {
      closing := true;
      awaited := SignalOwned();
      ClosedAsMachine(entries, channels, store, old(signalled), awaited);
    }

    /** The loop over the entries. */
    method SignalOwned() returns (awaited: seq<Id>)
      modifies `signalled
      ensures Distinct(awaited) && forall id :: id in awaited <==>
                && id in entries && !Terminal(entries[id].allocation)
                && (entries[id].supervised || entries[id].terminalizing)
      ensures signalled == old(signalled) + set id | id in awaited
    {
      awaited := [];
      var left := entries.Keys;
      while left != {}
        invariant left <= entries.Keys && Distinct(awaited)
        invariant forall id :: id in awaited <==>
                    && id in entries && id !in left && !Terminal(entries[id].allocation)
                    && (entries[id].supervised || entries[id].terminalizing)
        invariant signalled == old(signalled) + set id | id in awaited
        decreases |left|
      {
        var id :| id in left;
        left := left - {id};
        if !Terminal(entries[id].allocation) && (entries[id].supervised || entries[id].terminalizing) {
          signalled := signalled + {id};
          awaited := awaited + [id];
        }
      }
    }

    /** The report: the leaks recorded so far are taken, then unfinished work is added. */
    method CollectLeaks(awaited: seq<Id>) returns (report: seq<Machine.Leak>)
      requires Valid()
      modifies `leaked
      ensures leaked == []
      ensures report == Machine.Collected(old(leaked), awaited, Resident(entries))
    {
      report := leaked;
      leaked := [];
      var i := 0;
      while i < |awaited|
        invariant 0 <= i <= |awaited| && leaked == []
        invariant report == Machine.Collected(old(leaked), awaited[..i], Resident(entries))
      {
        var id := awaited[i];
        assert awaited[..i + 1][..i] == awaited[..i];
        if !Machine.HasLeak(report, id) && id in entries && !Terminal(entries[id].allocation) {
          report := report + [Machine.LeakOf(entries[id].allocation, Machine.NotTerminal)];
        }
        i := i + 1;
      }
      assert awaited[..|awaited|] == awaited;
    }
  }

  /** The record carries the note, if one was written, and otherwise what it carried. */
  ghost predicate Noted(before: Allocation, after: Allocation, note: Option<Fault>) {
    && after.error == (if note.Some? then note else before.error)
    && after.vmCreated == before.vmCreated && after.runnerId == before.runnerId
  }

  lemma NotedTwice(a: Allocation, b: Allocation, c: Allocation)
    requires Noted(a, b, None)
    ensures forall note :: Noted(b, c, note) <==> Noted(a, c, note)
  {
  }

  predicate IsUnfinished(entries: map<Id, Machine.Entry>, id: Id) {
    id in entries && !Terminal(entries[id].allocation)
  }

  ghost function SlotsOf(entries: map<Id, Machine.Entry>, channels: map<Id, Allocation>, store: map<Id, Allocation>,
                         signalled: set<Id>): map<Id, Machine.Slot>
    requires Agree(entries, channels, store)
  {
    map id | id in entries ::
      Machine.Slot(Some(entries[id]), channels[id], store[id], {}, None, map[], id in signalled, false, false, [],
                   None, "")
  }

  lemma ClosedAsMachine(entries: map<Id, Machine.Entry>, channels: map<Id, Allocation>, store: map<Id, Allocation>,
                        signalled: set<Id>, awaited: seq<Id>)
    requires Agree(entries, channels, store) && Distinct(awaited)
    requires forall id :: id in awaited <==>
               && id in entries && !Terminal(entries[id].allocation)
               && (entries[id].supervised || entries[id].terminalizing)
    ensures Machine.Enumerates(awaited, SlotsOf(entries, channels, store, signalled))
    ensures SlotsOf(entries, channels, store, signalled + set id | id in awaited)
            == Machine.Signalled(SlotsOf(entries, channels, store, signalled), awaited)
  {
    var before := SlotsOf(entries, channels, store, signalled);
    var after := SlotsOf(entries, channels, store, signalled + set id | id in awaited);
    forall id | id in entries ensures after[id] == Machine.Signalled(before, awaited)[id] {
    }
    forall id ensures id in awaited <==> id in before && Machine.IsAwaited(before[id]) {
    }
    assert after == Machine.Signalled(before, awaited);
  }

  /** Every resident record is what its channel shows and what the store holds. */
  ghost predicate Agree(entries: map<Id, Machine.Entry>, channels: map<Id, Allocation>, store: map<Id, Allocation>) {
    forall id :: id in entries ==>
      id in channels && id in store && entries[id].allocation.id == id &&
      channels[id] == entries[id].allocation == store[id]
  }

  lemma FewerAgree(before: map<Id, Machine.Entry>, after: map<Id, Machine.Entry>, channels: map<Id, Allocation>,
                   store: map<Id, Allocation>)
    requires Agree(before, channels, store) && forall i :: i in after ==> i in before && after[i] == before[i]
    ensures Agree(after, channels, store)
  {
  }

  /** Entries other than `id` are untouched. */
  ghost predicate Others(before: map<Id, Machine.Entry>, after: map<Id, Machine.Entry>, id: Id) {
    before - {id} == after - {id}
  }

  lemma OneChanged(entries: map<Id, Machine.Entry>, id: Id, e: Machine.Entry)
    ensures Others(entries, entries[id := e], id)
  {
  }

  /** What stays resident is exactly what pruning allows, unchanged. */
  ghost predicate Trimmed(before: map<Id, Machine.Entry>, after: map<Id, Machine.Entry>, limit: nat) {
    && History.IsPruning(Resident(before), before.Keys, limit, after.Keys)
    && (forall i :: i in after ==> i in before && after[i] == before[i])
    && (forall i :: i in before && !Terminal(before[i].allocation) ==> i in after)
  }

  lemma KeptIsTrimmed(before: map<Id, Machine.Entry>, limit: nat, kept: map<Id, Allocation>)
    requires var m := Resident(before); kept == History.Restricted(m, History.Kept(m, m.Keys, limit))
    ensures Trimmed(before, map i | i in before && i in kept :: before[i], limit)
  {
    var m := Resident(before);
    assert m.Keys == before.Keys;
    History.KeptIsPruning(m, m.Keys, limit);
    assert kept.Keys == History.Kept(m, m.Keys, limit);
    var after := map i | i in before && i in kept :: before[i];
    assert after.Keys == kept.Keys;
    forall i | i in before && !Terminal(before[i].allocation) ensures i in after {
      assert i in m.Keys - History.Finished(m, m.Keys);
    }
  }

  function Resident(entries: map<Id, Machine.Entry>): map<Id, Allocation> {
    map id | id in entries :: entries[id].allocation
  }

  /** The cleanup attempts of one teardown: at least one, at most one under a deadline and three
      otherwise, all but the last failed, and short of the bound the last succeeded. */
  ghost predicate Attempts(outcome: nat -> bool, bounded: bool, from: nat, to: nat) {
    && from < to <= from + (if bounded then 1 else 3)
    && (forall i :: from <= i < to - 1 ==> !outcome(i))
    && (to < from + (if bounded then 1 else 3) ==> outcome(to - 1))
  }

  lemma LeakKnown(before: seq<Machine.Leak>, after: seq<Machine.Leak>, a: Allocation, recorded: bool)
    requires after == if recorded then Machine.WithLeak(before, a, Machine.CleanupFailed) else before
    ensures Machine.HasLeak(after, a.id) <==> Machine.HasLeak(before, a.id) || recorded
  {
    if recorded && !Machine.HasLeak(before, a.id) {
      assert after[|before|].id == a.id;
    }
  }

  /** Binds teardown to the worker's scope: whichever of the normal path and the drop comes first
      takes the claim. */
  class WorkerTeardown {
    var claim: Option<Allocation>
    const manager: AllocationManager

    constructor (manager: AllocationManager, a: Allocation)
      ensures claim == Some(a) && this.manager == manager
    {
      this.manager, claim := manager, Some(a);
    }

    method EnsureFinished(cancelled: bool, ok: bool, now: nat)
      requires manager.Valid()
      modifies this, manager
      ensures manager.Valid() && claim.None?
      ensures manager.teardowns == old(manager.teardowns) + (if old(claim).Some? then 1 else 0)
      ensures old(claim).Some? && old(IsUnfinished(manager.entries, claim.value.id)) ==>
                manager.TornDown(old(claim).value.id, cancelled, ok)
    {
      if claim.None? {
        return;
      }
      var a := claim.value;
      claim := None;
      manager.RunTeardown(a, cancelled, ok, now);
    }

    /** The scope ends, by return or by unwinding; without a runtime nothing can be spawned. */
    method Drop(hasRuntime: bool, cancelled: bool, now: nat)
      requires manager.Valid()
      modifies this, manager
      ensures manager.Valid() && claim.None?
      ensures manager.teardowns == old(manager.teardowns) + (if old(claim).Some? && hasRuntime then 1 else 0)
      ensures old(claim).Some? && hasRuntime && old(IsUnfinished(manager.entries, claim.value.id)) ==>
                manager.TornDown(old(claim).value.id, cancelled, false)
      ensures old(claim).None? || !hasRuntime ==> unchanged(manager)
    {
      if claim.None? {
        return;
      }
      var a := claim.value;
      claim := None;
      if hasRuntime {
        manager.RunTeardown(a, cancelled, false, now);
      }
    }
  }

  /** A worker task from spawn to end: it returns, or unwinds before it could. With a runtime left
      to run it on, teardown runs exactly once either way. */
  method WorkerScope(manager: AllocationManager, a: Allocation, returned: bool, ok: bool, cancelled: bool,
                     hasRuntime: bool, now: nat)
    requires manager.Valid()
    modifies manager
    ensures manager.Valid()
    ensures manager.teardowns == old(manager.teardowns) + (if returned || hasRuntime then 1 else 0)
    ensures (returned || hasRuntime) && old(IsUnfinished(manager.entries, a.id)) ==>
              && manager.TornDown(a.id, cancelled, returned && ok)
              && a.id in manager.entries && 0 < manager.saveAt && 0 < manager.cleanupAt
              && (manager.saves(manager.saveAt - 1) ==>
                  var clean, state := manager.cleanups(manager.cleanupAt - 1), manager.entries[a.id].allocation.state;
                  && (state.Cancelled? <==> clean && cancelled)
                  && (state.Completed? <==> clean && returned && ok && !cancelled)
                  && (state.Failed? <==> !clean || (!(returned && ok) && !cancelled)))
  {
    var guard := new WorkerTeardown(manager, a);
    if returned {
      guard.EnsureFinished(cancelled, ok, now);
    }
    guard.Drop(hasRuntime, cancelled, now);
  }
}
