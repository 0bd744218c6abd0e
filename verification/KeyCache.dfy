/** The verification-key cache: `keys`, `cached_keys` and `decoding_key`,
    crates/flanforge-auth/src/oidc.rs. Callers interleave over a monotone clock; every await is a
    step boundary, and a caller may be dropped at any of them. */
module KeyCache {
  import opened Base

  const MINIMUM_REFRESH_INTERVAL := 30.0

  /** What selection reads of a key (sections 4.2 to 4.5 of RFC 7517). `decodes` is whether the JWT
      library can build a verification key from it. */
  datatype Jwk = Jwk(keyId: Option<string>, isRsa: bool, algorithm: Option<Algorithm>, usage: Option<Usage>,
                     operations: Option<set<Operation>>, decodes: bool)

  datatype Algorithm = Rs256 | OtherAlgorithm

  datatype Usage = Signature | OtherUsage

  datatype Operation = Verify | OtherOperation

  datatype Failure = Cooldown | Connect | Status | Oversize | BadJson | EmptyKeySet

  datatype Error = Unavailable(failure: Failure) | AmbiguousKey | KeyUnusable | UnknownKey

  type KeySet = seq<Jwk>

  // ---------------------------------------------------------------- choosing a key

  predicate Named(k: Jwk, id: string) {
    k.keyId == Some(id)
  }

  predicate Usable(k: Jwk) {
    && k.isRsa && k.algorithm == Some(Rs256) && k.decodes
    && (k.usage.Some? ==> k.usage.value == Signature)
    && (k.operations.Some? ==> Verify in k.operations.value)
  }

  /** What a set says of a key id: nothing, or a key, or a rejection. */
  ghost predicate Decides(keys: KeySet, id: string, r: Option<Result<Jwk, Error>>) {
    match r
    case None => forall i :: 0 <= i < |keys| ==> !Named(keys[i], id)
    case Some(Ok(k)) => OnlyOne(keys, id, k) && Usable(k)
    case Some(Err(e)) =>
      if e == KeyUnusable then exists k :: OnlyOne(keys, id, k) && !Usable(k)
      else e == AmbiguousKey && exists i, j :: 0 <= i < j < |keys| && Named(keys[i], id) && Named(keys[j], id)
  }

  /** `k` bears the id, at one position only. */
  ghost predicate OnlyOne(keys: KeySet, id: string, k: Jwk) {
    exists i :: 0 <= i < |keys| && keys[i] == k && Named(k, id) &&
      forall j :: 0 <= j < |keys| && Named(keys[j], id) ==> i == j
  }

  /** The first and second match of the source's filter. */
  method Choose(keys: KeySet, id: string) returns (r: Option<Result<Jwk, Error>>)
    ensures Decides(keys, id, r)
    ensures r.None? <==> forall i :: 0 <= i < |keys| ==> keys[i].keyId != Some(id)
    ensures r == Some(Err(AmbiguousKey)) <==>
            exists i, j :: 0 <= i < j < |keys| && keys[i].keyId == keys[j].keyId == Some(id)
    ensures r.Some? && r.value.Ok? ==>
              var k := r.value.value;
              && k in keys && k.keyId == Some(id) && k.isRsa && k.algorithm == Some(Rs256) && k.decodes
              && (k.usage.None? || k.usage.value.Signature?)
              && (k.operations.None? || Verify in k.operations.value)
    ensures r.Some? && r.value.Err? ==>
              || r.value.error == AmbiguousKey
              || (r.value.error == KeyUnusable && exists k ::
                    && k in keys && k.keyId == Some(id)
                    && !(&& k.isRsa && k.algorithm == Some(Rs256) && k.decodes
                         && (k.usage.None? || k.usage.value.Signature?)
                         && (k.operations.None? || Verify in k.operations.value)))
  {
    var first := Following(keys, id, 0);
    if first == |keys| {
      return None;
    }
    var second := Following(keys, id, first + 1);
    if second < |keys| {
      return Some(Err(AmbiguousKey));
    }
    var k := keys[first];
    assert OnlyOne(keys, id, k);
    r := if Usable(k) then Some(Ok(k)) else Some(Err(KeyUnusable));
  }

  /** The first match at or after `from`, or the length. */
  method Following(keys: KeySet, id: string, from: nat) returns (at: nat)
    requires from <= |keys|
    ensures from <= at <= |keys| && (at < |keys| ==> Named(keys[at], id))
    ensures forall i :: from <= i < at ==> !Named(keys[i], id)
  {
    at := from;
    while at < |keys| && !Named(keys[at], id)
      invariant from <= at <= |keys|
      invariant forall i :: from <= i < at ==> !Named(keys[i], id)
    {
      at := at + 1;
    }
  }

  /** The loop over the two refresh modes; `keys` answers each. A key is taken from the cached set when
      that set knows the id, and otherwise from the refreshed one; the id is unknown only when both
      sets lack it. */
  method DecodingKey(keys: bool -> Result<KeySet, Error>, id: string) returns (r: Result<Jwk, Error>)
    ensures keys(false).Err? ==> r == Err(keys(false).error)
    ensures keys(false).Ok? && !Decides(keys(false).value, id, None) ==> Decides(keys(false).value, id, Some(r))
    ensures keys(false).Ok? && Decides(keys(false).value, id, None) ==>
              if keys(true).Err? then r == Err(keys(true).error)
              else if Decides(keys(true).value, id, None) then r == Err(UnknownKey)
              else Decides(keys(true).value, id, Some(r))
  {
    var force := false;
    while true
      invariant force ==> keys(false).Ok? && Decides(keys(false).value, id, None)
      decreases !force
    {
      if keys(force).Err? {
        return Err(keys(force).error);
      }
      var choice := Choose(keys(force).value, id);
      if choice.Some? {
        return choice.value;
      }
      if force {
        return Err(UnknownKey);
      }
      force := true;
    }
  }

  // ---------------------------------------------------------------- one caller alone

  /** The verifier's two mutex-held fields, as a caller nobody contends with changes them. */
  predicate Brings(answer: Result<KeySet, Failure>) {
    answer.Ok? && answer.value != []
  }

  class OidcVerifier {
    const lifetime: real
    var cache: Option<Cached>
    var lastAttempt: Option<real>

    constructor (lifetime: real)
      ensures this.lifetime == lifetime && cache.None? && lastAttempt.None?
    {
      this.lifetime, cache, lastAttempt := lifetime, None, None;
    }

    predicate IsFresh(at: real, now: real, limit: real) {
      now - at < limit
    }

    /** What a look at `now` may hand out. */
    predicate Offers(force: bool, now: real)
      reads this
    {
      && cache.Some? && IsFresh(cache.value.fetchedAt, now, lifetime)
      && (!force || IsFresh(cache.value.fetchedAt, now, MINIMUM_REFRESH_INTERVAL))
    }

    predicate CoolsDown(now: real)
      reads this
    {
      lastAttempt.Some? && IsFresh(lastAttempt.value, now, MINIMUM_REFRESH_INTERVAL)
    }

    /** Asked at `now`; `answer` is what a fetch brings, at `done`. The provider is asked exactly when
        nothing acceptable is cached and the last attempt is 30 seconds old; only a non-empty answer
        replaces the cache; and the cooldown hands out no set past its lifetime. */
    method Keys(force: bool, now: real, answer: Result<KeySet, Failure>, done: real)
        returns (r: Result<KeySet, Error>, asked: bool)
      requires now <= done
      modifies this
      ensures asked <==>
              && old(cache.None? || now - cache.value.fetchedAt >= lifetime ||
                     (force && now - cache.value.fetchedAt >= 30.0))
              && old(lastAttempt.None? || now - lastAttempt.value >= 30.0)
      ensures lastAttempt == if asked then Some(now) else old(lastAttempt)
      ensures cache == if asked && Brings(answer) then Some(Cached(answer.value, done)) else old(cache)
      ensures r.Ok? <==> if asked then Brings(answer) else cache.Some? && now - cache.value.fetchedAt < lifetime
      ensures r.Err? ==>
                r.error == Unavailable(if !asked then Cooldown else if answer.Err? then answer.error else EmptyKeySet)
      ensures r.Ok? ==> r.value == cache.value.keys
      ensures r.Ok? && force && !asked ==>
                now - cache.value.fetchedAt < 30.0 || (lastAttempt.Some? && now - lastAttempt.value < 30.0)
    {
      asked := false;
      if Offers(force, now) {
        return Ok(cache.value.keys), false;
      }
      if CoolsDown(now) {
        if Offers(false, now) {
          return Ok(cache.value.keys), false;
        }
        return Err(Unavailable(Cooldown)), false;
      }
      asked := true;
      lastAttempt := Some(now);
      match answer
      case Err(f) => r := Err(Unavailable(f));
      case Ok(keys) =>
        if keys == [] {
          r := Err(Unavailable(EmptyKeySet));
        } else {
          cache := Some(Cached(keys, done));
          r := Ok(keys);
        }
    }
  }

  // ---------------------------------------------------------------- the protocol

  datatype Cached = Cached(keys: KeySet, fetchedAt: real)

  /** A fetch that went out: when it was stamped and when the request started. */
  datatype Fetch = Fetch(stamp: real, start: real)

  /** Where a caller stands: before the first look, waiting for the refresh lock, holding it up to the
      second look, up to the cooldown check, in the cooldown branch, cleared to stamp, stamped,
      fetching, holding an answer, or returned. */
  datatype Phase =
    | Looking | Waiting | Locked | Checking | Refused(checked: real) | Cleared | Stamped(at: real) | Fetching
    | Storing(keys: KeySet, at: real) | Returned(keys: KeySet, at: real, read: real, refused: Option<real>)
    | Decided(result: Result<Jwk, Error>) | Gone

  datatype Caller = Caller(keyId: string, force: bool, phase: Phase)

  type Id = nat

  /** The verifier, its clock and its callers. `stamps`, `fetches` and `answers` record the past. */
  datatype Sys = Sys(lifetime: real, now: real, cache: Option<Cached>, lastAttempt: Option<real>, holder: Option<Id>,
                     callers: map<Id, Caller>, stamps: seq<real>, fetches: seq<Fetch>, answers: seq<Cached>)

  datatype Event =
    | Tick(elapsed: real)
    | Arrive(id: Id, keyId: string)
    | Look(id: Id) | Acquire(id: Id) | Check(id: Id) | ReadRefused(id: Id) | Stamp(id: Id) | Start(id: Id)
    | Answer(id: Id, answer: Result<KeySet, Failure>) | Store(id: Id)
    | Decide(id: Id, choice: Option<Result<Jwk, Error>>) | Abandon(id: Id)

  ghost function Init(lifetime: real): Sys {
    Sys(lifetime, 0.0, None, None, None, map[], [], [], [])
  }

  predicate Fresh(s: Sys, at: real, limit: real) {
    s.now - at < limit
  }

  /** The key set a look finds: within its lifetime, and for a forced caller within 30 seconds. */
  function Found(s: Sys, force: bool): Option<Cached> {
    if s.cache.Some? && Fresh(s, s.cache.value.fetchedAt, s.lifetime)
       && (!force || Fresh(s, s.cache.value.fetchedAt, MINIMUM_REFRESH_INTERVAL))
    then s.cache else None
  }

  predicate HoldsLock(p: Phase) {
    p.Locked? || p.Checking? || p.Refused? || p.Cleared? || p.Stamped? || p.Fetching? || p.Storing?
  }

  function At(s: Sys, id: Id): Phase {
    if id in s.callers then s.callers[id].phase else Gone
  }

  function Moved(s: Sys, id: Id, p: Phase): Sys
    requires id in s.callers
  {
    s.(callers := s.callers[id := s.callers[id].(phase := p)])
  }

  /** Leaving with a result drops the refresh guard. */
  function Left(s: Sys, id: Id, p: Phase): Sys
    requires id in s.callers
  {
    Moved(s, id, p).(holder := if s.holder == Some(id) then None else s.holder)
  }

  function Looked(s: Sys, id: Id, otherwise: Phase): Sys
    requires id in s.callers
  {
    var found := Found(s, s.callers[id].force);
    if found.Some? then Left(s, id, Returned(found.value.keys, found.value.fetchedAt, s.now, None))
    else Moved(s, id, otherwise)
  }

  function Checked(s: Sys, id: Id): Sys
    requires id in s.callers
  {
    var cools := s.lastAttempt.Some? && Fresh(s, s.lastAttempt.value, MINIMUM_REFRESH_INTERVAL);
    Moved(s, id, if cools then Refused(s.now) else Cleared)
  }

  function CooledDown(s: Sys, id: Id, checked: real): Sys
    requires id in s.callers
  {
    var found := Found(s, false);
    Left(s, id, if found.Some? then Returned(found.value.keys, found.value.fetchedAt, s.now, Some(checked))
                else Decided(Err(Unavailable(Cooldown))))
  }

  function Answered(s: Sys, id: Id, answer: Result<KeySet, Failure>): Sys
    requires id in s.callers
  {
    match answer
    case Err(f) => Left(s, id, Decided(Err(Unavailable(f))))
    case Ok(keys) =>
      if keys == [] then Left(s, id, Decided(Err(Unavailable(EmptyKeySet))))
      else Moved(s, id, Storing(keys, s.now)).(answers := s.answers + [Cached(keys, s.now)])
  }

  function Stored(s: Sys, id: Id, keys: KeySet, at: real): Sys
    requires id in s.callers
  {
    Left(s, id, Returned(keys, at, at, None)).(cache := Some(Cached(keys, at)))
  }

  ghost function Settled(s: Sys, id: Id, choice: Option<Result<Jwk, Error>>): Sys
    requires id in s.callers && s.callers[id].phase.Returned?
  {
    var c := s.callers[id];
    if !Decides(c.phase.keys, c.keyId, choice) then s
    else if choice.Some? then Moved(s, id, Decided(choice.value))
    else if c.force then Moved(s, id, Decided(Err(UnknownKey)))
    else s.(callers := s.callers[id := Caller(c.keyId, true, Looking)])
  }

  /** One step; an event that is not enabled changes nothing. */
  ghost function Next(s: Sys, e: Event): Sys {
    match e
    case Tick(d) => if d >= 0.0 then s.(now := s.now + d) else s
    case Arrive(id, keyId) =>
      if id in s.callers then s else s.(callers := s.callers[id := Caller(keyId, false, Looking)])
    case Look(id) =>
      if At(s, id) == Looking then Looked(s, id, Waiting)
      else if At(s, id) == Locked then Looked(s, id, Checking)
      else s
    case Acquire(id) =>
      if At(s, id) == Waiting && s.holder.None? then Moved(s, id, Locked).(holder := Some(id)) else s
    case Check(id) => if At(s, id) == Checking then Checked(s, id) else s
    case ReadRefused(id) => if At(s, id).Refused? then CooledDown(s, id, At(s, id).checked) else s
    case Stamp(id) =>
      if At(s, id) != Cleared then s
      else Moved(s, id, Stamped(s.now)).(lastAttempt := Some(s.now), stamps := s.stamps + [s.now])
    case Start(id) =>
      if At(s, id).Stamped? then Moved(s, id, Fetching).(fetches := s.fetches + [Fetch(At(s, id).at, s.now)]) else s
    case Answer(id, answer) => if At(s, id) == Fetching then Answered(s, id, answer) else s
    case Store(id) => if At(s, id).Storing? then Stored(s, id, At(s, id).keys, At(s, id).at) else s
    case Decide(id, choice) => if At(s, id).Returned? then Settled(s, id, choice) else s
    case Abandon(id) => if id in s.callers then Left(s, id, Gone) else s
  }

  ghost function Run(s: Sys, events: seq<Event>): Sys {
    if events == [] then s else Next(Run(s, events[..|events| - 1]), events[|events| - 1])
  }

  // ---------------------------------------------------------------- what every step keeps

  /** Consecutive stamps are 30 seconds apart; the last is the recorded attempt. */
  ghost predicate Spaced(s: Sys) {
    && (forall i, j :: 0 <= i < j < |s.stamps| ==> s.stamps[i] + MINIMUM_REFRESH_INTERVAL <= s.stamps[j])
    && (if s.stamps == [] then s.lastAttempt.None? else s.lastAttempt == Some(s.stamps[|s.stamps| - 1]))
    && (s.lastAttempt.Some? ==> s.lastAttempt.value <= s.now)
  }

  /** A later fetch is stamped 30 seconds after an earlier one, and after it started. */
  ghost predicate Apart(f: Fetch, g: Fetch) {
    f.stamp + MINIMUM_REFRESH_INTERVAL <= g.stamp && f.start <= g.stamp
  }

  ghost predicate Paced(s: Sys) {
    && (forall i, j :: 0 <= i < j < |s.fetches| ==> Apart(s.fetches[i], s.fetches[j]))
    && (forall f :: f in s.fetches ==>
       f.stamp <= f.start <= s.now && s.lastAttempt.Some? && f.stamp <= s.lastAttempt.value)
  }

  /** Some attempt was stamped less than 30 seconds before. */
  ghost predicate Cooling(stamps: seq<real>, when: real) {
    exists i :: 0 <= i < |stamps| && stamps[i] <= when < stamps[i] + MINIMUM_REFRESH_INTERVAL
  }

  lemma StillCooling(stamps: seq<real>, more: real, when: real)
    ensures Cooling(stamps, when) ==> Cooling(stamps + [more], when)
  {
    if i :| 0 <= i < |stamps| && stamps[i] <= when < stamps[i] + MINIMUM_REFRESH_INTERVAL {
      assert (stamps + [more])[i] == stamps[i];
    }
  }

  /** What is known of one caller. */
  ghost predicate Placed(s: Sys, id: Id, c: Caller) {
    && (HoldsLock(c.phase) ==> s.holder == Some(id))
    && match c.phase
       case Cleared => s.lastAttempt.Some? ==> s.lastAttempt.value + MINIMUM_REFRESH_INTERVAL <= s.now
       case Stamped(at) =>
         s.lastAttempt == Some(at) &&
             (forall f :: f in s.fetches ==> f.stamp + MINIMUM_REFRESH_INTERVAL <= at && f.start <= at)
       case Refused(checked) => Cooling(s.stamps, checked)
       case Storing(keys, at) => Cached(keys, at) in s.answers && (s.cache.Some? ==> s.cache.value.fetchedAt <= at)
       case Returned(keys, at, read, refused) =>
         && Cached(keys, at) in s.answers && read - at < s.lifetime
         && s.cache.Some? && at <= s.cache.value.fetchedAt
         && (c.force ==> if refused.None? then read - at < MINIMUM_REFRESH_INTERVAL
            else Cooling(s.stamps, refused.value))
       case Decided(r) => FromAnswer(s, c, r)
       case _ => true
  }

  /** A decision about keys rests on a set the provider sent; an unknown key on a forced look. */
  ghost predicate FromAnswer(s: Sys, c: Caller, r: Result<Jwk, Error>) {
    match r
    case Ok(k) => exists a :: a in s.answers && OnlyOne(a.keys, c.keyId, k) && Usable(k)
    case Err(e) => (e == UnknownKey ==> c.force && exists a :: a in s.answers && Decides(a.keys, c.keyId, None))
  }

  ghost predicate Sound(s: Sys) {
    && s.lifetime > 0.0
    && Spaced(s) && Paced(s)
    && (s.cache.Some? ==> s.cache.value in s.answers)
    && (forall a :: a in s.answers ==> a.keys != [] && a.fetchedAt <= s.now)
    && (forall id :: id in s.callers ==> Placed(s, id, s.callers[id]))
  }

  /** Moving one caller, with the shared state as it was, keeps the rest in place. */
  lemma MovedSound(s: Sys, id: Id, c: Caller, t: Sys)
    requires Sound(s) && id in s.callers
    requires t == s.(callers := s.callers[id := c], holder := t.holder)
    requires t.holder == s.holder || (s.holder == Some(id) && t.holder.None?) ||
        (s.holder.None? && t.holder == Some(id))
    requires Placed(t, id, c)
    ensures Sound(t)
  {
    forall o | o in t.callers && o != id ensures Placed(t, o, t.callers[o]) {
      assert Placed(s, o, s.callers[o]);
      assert s.callers[o].phase.Decided? ==> FromAnswer(t, s.callers[o], s.callers[o].phase.result);
    }
  }

  lemma TickSound(s: Sys, d: real)
    requires Sound(s) && d >= 0.0
    ensures Sound(s.(now := s.now + d))
  {
    var t := s.(now := s.now + d);
    forall id | id in t.callers ensures Placed(t, id, t.callers[id]) {
      assert Placed(s, id, s.callers[id]);
    }
  }

  lemma ArriveSound(s: Sys, id: Id, keyId: string)
    requires Sound(s) && id !in s.callers
    ensures Sound(s.(callers := s.callers[id := Caller(keyId, false, Looking)]))
  {
    var t := s.(callers := s.callers[id := Caller(keyId, false, Looking)]);
    forall o | o in t.callers && o != id ensures Placed(t, o, t.callers[o]) {
      assert Placed(s, o, s.callers[o]);
    }
  }

  lemma LookedSound(s: Sys, id: Id, otherwise: Phase)
    requires Sound(s) && id in s.callers && (HoldsLock(otherwise) ==> s.holder == Some(id))
    requires otherwise == Waiting || otherwise == Checking
    ensures Sound(Looked(s, id, otherwise))
  {
    var t := Looked(s, id, otherwise);
    MovedSound(s, id, t.callers[id], t);
  }

  lemma CheckedSound(s: Sys, id: Id)
    requires Sound(s) && At(s, id) == Checking
    ensures Sound(Checked(s, id))
  {
    var t := Checked(s, id);
    assert Placed(s, id, s.callers[id]);
    if t.callers[id].phase.Refused? {
      assert s.stamps[|s.stamps| - 1] == s.lastAttempt.value;
    }
    MovedSound(s, id, t.callers[id], t);
  }

  lemma CooledDownSound(s: Sys, id: Id)
    requires Sound(s) && At(s, id).Refused?
    ensures Sound(CooledDown(s, id, At(s, id).checked))
  {
    var t := CooledDown(s, id, At(s, id).checked);
    assert Placed(s, id, s.callers[id]);
    MovedSound(s, id, t.callers[id], t);
  }

  /** Only the lock's holder stamps, so no other caller stands on the old stamp. */
  lemma StampSound(s: Sys, id: Id)
    requires Sound(s) && At(s, id) == Cleared
    ensures Sound(Next(s, Stamp(id)))
  {
    var t := Next(s, Stamp(id));
    assert Placed(s, id, s.callers[id]);
    forall o | o in t.callers && o != id ensures Placed(t, o, t.callers[o]) {
      StampPlaces(s, t, id, o);
    }
    assert Spaced(t);
    assert Paced(t);
  }

  lemma StampPlaces(s: Sys, t: Sys, id: Id, o: Id)
    requires Sound(s) && At(s, id) == Cleared && t == Next(s, Stamp(id)) && o in s.callers && o != id
    ensures Placed(t, o, s.callers[o])
  {
    assert Placed(s, id, s.callers[id]);
    var c := s.callers[o];
    assert Placed(s, o, c);
    if c.phase.Returned? && c.phase.refused.Some? {
      StillCooling(s.stamps, s.now, c.phase.refused.value);
    } else if c.phase.Decided? {
      assert FromAnswer(t, c, c.phase.result);
    }
  }

  lemma StartSound(s: Sys, id: Id)
    requires Sound(s) && At(s, id).Stamped?
    ensures Sound(Next(s, Start(id)))
  {
    var t := Next(s, Start(id));
    assert Placed(s, id, s.callers[id]);
    var f := Fetch(At(s, id).at, s.now);
    forall o | o in t.callers && o != id ensures Placed(t, o, t.callers[o]) {
      assert Placed(s, o, s.callers[o]);
      assert s.callers[o].phase.Decided? ==> FromAnswer(t, s.callers[o], s.callers[o].phase.result);
    }
    forall i | 0 <= i < |s.fetches| ensures Apart(s.fetches[i], f) {
      assert s.fetches[i] in s.fetches;
    }
  }

  lemma AnsweredSound(s: Sys, id: Id, answer: Result<KeySet, Failure>)
    requires Sound(s) && At(s, id) == Fetching
    ensures Sound(Answered(s, id, answer))
  {
    var t := Answered(s, id, answer);
    if answer.Ok? && answer.value != [] {
      KeptSound(s, id, answer.value);
    } else {
      MovedSound(s, id, t.callers[id], t);
    }
  }

  lemma KeptSound(s: Sys, id: Id, keys: KeySet)
    requires Sound(s) && At(s, id) == Fetching && keys != []
    ensures Sound(Moved(s, id, Storing(keys, s.now)).(answers := s.answers + [Cached(keys, s.now)]))
  {
    var t := Moved(s, id, Storing(keys, s.now)).(answers := s.answers + [Cached(keys, s.now)]);
    forall o | o in t.callers && o != id ensures Placed(t, o, t.callers[o]) {
      assert Placed(s, o, s.callers[o]);
      AnswersGrow(s, t, s.callers[o]);
    }
    assert Placed(s, id, s.callers[id]);
  }

  lemma AnswersGrow(s: Sys, t: Sys, c: Caller)
    requires forall a :: a in s.answers ==> a in t.answers
    ensures c.phase.Decided? && FromAnswer(s, c, c.phase.result) ==> FromAnswer(t, c, c.phase.result)
  {
  }

  lemma StoredSound(s: Sys, id: Id)
    requires Sound(s) && At(s, id).Storing?
    ensures Sound(Next(s, Store(id)))
  {
    var t := Next(s, Store(id));
    assert Placed(s, id, s.callers[id]);
    forall o | o in t.callers && o != id ensures Placed(t, o, t.callers[o]) {
      assert Placed(s, o, s.callers[o]);
      AnswersGrow(s, t, s.callers[o]);
    }
  }

  lemma SettledSound(s: Sys, id: Id, choice: Option<Result<Jwk, Error>>)
    requires Sound(s) && At(s, id).Returned?
    ensures Sound(Settled(s, id, choice))
  {
    var t := Settled(s, id, choice);
    var c := s.callers[id];
    assert Placed(s, id, c);
    var a := Cached(c.phase.keys, c.phase.at);
    assert a in s.answers && a.keys == c.phase.keys;
    if t != s {
      MovedSound(s, id, t.callers[id], t);
    }
  }

  lemma AbandonSound(s: Sys, id: Id)
    requires Sound(s) && id in s.callers
    ensures Sound(Left(s, id, Gone))
  {
    var t := Left(s, id, Gone);
    MovedSound(s, id, t.callers[id], t);
  }

  lemma NextSound(s: Sys, e: Event)
    requires Sound(s)
    ensures Sound(Next(s, e))
  {
    var t := Next(s, e);
    if t != s {
      match e
      case Tick(d) => TickSound(s, d);
      case Arrive(id, keyId) => ArriveSound(s, id, keyId);
      case Look(id) =>
        assert Placed(s, id, s.callers[id]);
        LookedSound(s, id, if At(s, id) == Looking then Waiting else Checking);
      case Acquire(id) => MovedSound(s, id, t.callers[id], t);
      case Check(id) => CheckedSound(s, id);
      case ReadRefused(id) => CooledDownSound(s, id);
      case Stamp(id) => StampSound(s, id);
      case Start(id) => StartSound(s, id);
      case Answer(id, answer) => AnsweredSound(s, id, answer);
      case Store(id) => StoredSound(s, id);
      case Decide(id, choice) => SettledSound(s, id, choice);
      case Abandon(id) => AbandonSound(s, id);
    }
  }

  lemma {:induction false} RunSound(lifetime: real, events: seq<Event>)
    requires lifetime > 0.0
    ensures Sound(Run(Init(lifetime), events))
  {
    if events != [] {
      var s := Run(Init(lifetime), events[..|events| - 1]);
      RunSound(lifetime, events[..|events| - 1]);
      NextSound(s, events[|events| - 1]);
    }
  }

  lemma {:induction false} RunLifetime(lifetime: real, events: seq<Event>)
    ensures Run(Init(lifetime), events).lifetime == lifetime
  {
    if events != [] {
      RunLifetime(lifetime, events[..|events| - 1]);
    }
  }

  // ---------------------------------------------------------------- the promises

  /** In every run: recorded attempts are 30 seconds apart, two requests never overlap, and a request
      that went out `delay` after its stamp is followed by none for the rest of the 30 seconds. */
  lemma FetchesAreSpaced(lifetime: real, events: seq<Event>, i: nat, j: nat)
    requires lifetime > 0.0
    ensures var s := Run(Init(lifetime), events);
            && (i < j < |s.stamps| ==> s.stamps[j] - s.stamps[i] >= MINIMUM_REFRESH_INTERVAL)
            && (i < j < |s.fetches| ==>
                  var delay := s.fetches[i].start - s.fetches[i].stamp;
                  && s.fetches[j].start >= s.fetches[i].start
                  && s.fetches[j].start - s.fetches[i].start >= MINIMUM_REFRESH_INTERVAL - delay)
  {
    RunSound(lifetime, events);
    var s := Run(Init(lifetime), events);
    if i < j < |s.fetches| {
      assert Apart(s.fetches[i], s.fetches[j]);
      assert s.fetches[j] in s.fetches;
    }
  }

  /** At most one caller is past the lock, so at most one request is in flight. */
  lemma OneRequestAtATime(lifetime: real, events: seq<Event>, a: Id, b: Id)
    requires lifetime > 0.0
    requires HoldsLock(At(Run(Init(lifetime), events), a)) && HoldsLock(At(Run(Init(lifetime), events), b))
    ensures a == b
  {
    RunSound(lifetime, events);
    var s := Run(Init(lifetime), events);
    assert Placed(s, a, s.callers[a]) && Placed(s, b, s.callers[b]);
  }

  /** In every run: a key set handed to a caller is a non-empty one the provider sent, less than its
      lifetime before it was read, and what is cached by then is at least as recent. A forced caller's
      set is less than 30 seconds old, or it was refused within 30 seconds of an attempt. A key chosen
      is the only one of its id in such a set, and usable; an id is unknown only after a forced look. */
  lemma KeysAreGenuine(lifetime: real, events: seq<Event>, id: Id)
    requires lifetime > 0.0 && id in Run(Init(lifetime), events).callers
    ensures var s := Run(Init(lifetime), events);
            var c := s.callers[id];
            match c.phase
            case Returned(keys, at, read, refused) =>
              && Cached(keys, at) in s.answers && keys != [] && read - at < lifetime
              && s.cache.Some? && at <= s.cache.value.fetchedAt
              && (c.force ==> if refused.None? then read - at < MINIMUM_REFRESH_INTERVAL
                 else Cooling(s.stamps, refused.value))
            case Decided(r) =>
              && FromAnswer(s, c, r)
              && (r.Ok? ==>
                    && r.value.keyId == Some(c.keyId) && r.value.isRsa && r.value.algorithm == Some(Rs256)
                    && (r.value.usage.None? || r.value.usage.value.Signature?)
                    && (r.value.operations.None? || Verify in r.value.operations.value))
            case _ => true
  {
    RunSound(lifetime, events);
    RunLifetime(lifetime, events);
    var s := Run(Init(lifetime), events);
    assert Placed(s, id, s.callers[id]);
  }

  /** The cache moves only when a caller stores the non-empty answer it holds: a failed, empty or
      abandoned fetch leaves it as it was, and it is never emptied. */
  lemma CacheMovesByStoring(lifetime: real, events: seq<Event>, e: Event)
    requires lifetime > 0.0
    ensures var s := Run(Init(lifetime), events);
            var t := Next(s, e);
            t.cache != s.cache ==>
              && e.Store? && s.holder == Some(e.id) && At(s, e.id).Storing? && At(s, e.id).keys != []
              && t.cache == Some(Cached(At(s, e.id).keys, At(s, e.id).at))
  {
    RunSound(lifetime, events);
    var s := Run(Init(lifetime), events);
    if e.Store? && At(s, e.id).Storing? {
      assert Placed(s, e.id, s.callers[e.id]);
      assert Cached(At(s, e.id).keys, At(s, e.id).at) in s.answers;
    }
  }

  /** In every run: a caller is told to wait only within 30 seconds of an attempt, and only when no set
      within its lifetime is cached. */
  lemma RefusedOnlyWithoutKeys(lifetime: real, events: seq<Event>, e: Event, id: Id)
    requires lifetime > 0.0
    requires var s := Run(Init(lifetime), events);
             && At(s, id) != Decided(Err(Unavailable(Cooldown)))
             && At(Next(s, e), id) == Decided(Err(Unavailable(Cooldown)))
    ensures var s := Run(Init(lifetime), events);
            || e == Answer(id, Err(Cooldown))
            || (&& At(s, id).Refused? && Cooling(s.stamps, At(s, id).checked)
                && (s.cache.None? || s.now - s.cache.value.fetchedAt >= lifetime))
  {
    RunSound(lifetime, events);
    RunLifetime(lifetime, events);
    var s := Run(Init(lifetime), events);
    RefusingStep(s, e, id);
    assert Placed(s, id, s.callers[id]);
  }

  lemma RefusingStep(s: Sys, e: Event, id: Id)
    requires At(s, id) != Decided(Err(Unavailable(Cooldown)))
    requires At(Next(s, e), id) == Decided(Err(Unavailable(Cooldown)))
    ensures id in s.callers
    ensures || e == Answer(id, Err(Cooldown))
            || (At(s, id).Refused? && (s.cache.None? || s.now - s.cache.value.fetchedAt >= s.lifetime))
  {
  }

  // ---------------------------------------------------------------- how close two requests can come

  ghost predicate Reaches(s: Sys, t: Sys) {
    exists events :: Run(s, events) == t
  }

  lemma ReachesBy(s: Sys, t: Sys, e: Event)
    requires Reaches(s, t)
    ensures Reaches(s, Next(t, e))
  {
    var events :| Run(s, events) == t;
    assert (events + [e])[..|events + [e]| - 1] == events;
    assert Run(s, events + [e]) == Next(t, e);
  }

  /** A caller at `Looking` with nobody refreshing, left to itself: the protocol gives it what the verifier
      gives a caller alone. A set that is young enough is handed out at once; within 30 seconds of an
      attempt a set within its lifetime is, or none; and otherwise the provider is asked, and only a
      non-empty answer is cached and handed out. */
  lemma AloneAsVerifier(s: Sys, id: Id, answer: Result<KeySet, Failure>) returns (t: Sys)
    requires At(s, id) == Looking && s.holder.None?
    ensures Reaches(s, t) && t.holder.None?
    ensures var lives := s.cache.Some? && s.now - s.cache.value.fetchedAt < s.lifetime;
            var young := s.callers[id].force ==> s.cache.Some? && s.now - s.cache.value.fetchedAt < 30.0;
            var cools := s.lastAttempt.Some? && s.now - s.lastAttempt.value < 30.0;
            if lives && (young || cools) then
              && t.cache == s.cache && t.fetches == s.fetches && At(t, id).Returned?
              && At(t, id).keys == s.cache.value.keys && (At(t, id).refused.None? <==> young)
            else if cools then
              t.cache == s.cache && t.fetches == s.fetches && At(t, id) == Decided(Err(Unavailable(Cooldown)))
            else
              && t.fetches == s.fetches + [Fetch(s.now, s.now)] && t.lastAttempt == Some(s.now)
              && match answer
                 case Err(f) => t.cache == s.cache && At(t, id) == Decided(Err(Unavailable(f)))
                 case Ok(keys) =>
                   if keys == [] then t.cache == s.cache && At(t, id) == Decided(Err(Unavailable(EmptyKeySet)))
                   else t.cache == Some(Cached(keys, s.now)) && At(t, id) == Returned(keys, s.now, s.now, None)
  {
    assert Run(s, []) == s;
    var a := Stepped(s, s, Look(id));
    if Found(s, s.callers[id].force).Some? {
      t := a;
    } else {
      var d := AloneToCheck(s, a, id);
      t := AloneChecked(s, d, id, answer);
    }
  }

  /** From the wait for the lock to the cooldown check, with nothing to be found. */
  lemma AloneToCheck(r: Sys, s: Sys, id: Id) returns (t: Sys)
    requires Reaches(r, s) && At(s, id) == Waiting && s.holder.None? && Found(s, s.callers[id].force).None?
    ensures Reaches(r, t) && t == s.(holder := Some(id), callers := t.callers)
    ensures At(t, id) == if s.lastAttempt.Some? && s.now - s.lastAttempt.value < 30.0 then Refused(s.now) else Cleared
  {
    var a := Stepped(r, s, Acquire(id));
    var b := Stepped(r, a, Look(id));
    t := Stepped(r, b, Check(id));
  }

  /** One step further. */
  lemma Stepped(r: Sys, s: Sys, e: Event) returns (t: Sys)
    requires Reaches(r, s)
    ensures t == Next(s, e) && Reaches(r, t)
  {
    ReachesBy(r, s, e);
    t := Next(s, e);
  }

  /** From the check on, by the lock's holder. */
  lemma AloneChecked(r: Sys, s: Sys, id: Id, answer: Result<KeySet, Failure>) returns (t: Sys)
    requires Reaches(r, s) && s.holder == Some(id)
    requires At(s, id) == Cleared || At(s, id) == Refused(s.now)
    ensures Reaches(r, t) && t.holder.None?
    ensures At(s, id).Refused? ==>
              && t.cache == s.cache && t.fetches == s.fetches
              && At(t, id) == if s.cache.Some? && s.now - s.cache.value.fetchedAt < s.lifetime
                 then Returned(s.cache.value.keys, s.cache.value.fetchedAt, s.now, Some(s.now))
                 else Decided(Err(Unavailable(Cooldown)))
    ensures At(s, id) == Cleared ==>
              && t.fetches == s.fetches + [Fetch(s.now, s.now)] && t.lastAttempt == Some(s.now)
              && match answer
                 case Err(f) => t.cache == s.cache && At(t, id) == Decided(Err(Unavailable(f)))
                 case Ok(keys) =>
                   if keys == [] then t.cache == s.cache && At(t, id) == Decided(Err(Unavailable(EmptyKeySet)))
                   else t.cache == Some(Cached(keys, s.now)) && At(t, id) == Returned(keys, s.now, s.now, None)
  {
    if At(s, id).Refused? {
      t := Stepped(r, s, ReadRefused(id));
    } else {
      var a := Stepped(r, s, Stamp(id));
      var b := Stepped(r, a, Start(id));
      t := AloneAnswered(r, b, id, answer);
    }
  }

  lemma AloneAnswered(r: Sys, s: Sys, id: Id, answer: Result<KeySet, Failure>) returns (t: Sys)
    requires Reaches(r, s) && s.holder == Some(id) && At(s, id) == Fetching
    ensures Reaches(r, t) && t.holder.None? && t.fetches == s.fetches && t.lastAttempt == s.lastAttempt
    ensures match answer
            case Err(f) => t.cache == s.cache && At(t, id) == Decided(Err(Unavailable(f)))
            case Ok(keys) =>
              if keys == [] then t.cache == s.cache && At(t, id) == Decided(Err(Unavailable(EmptyKeySet)))
              else t.cache == Some(Cached(keys, s.now)) && At(t, id) == Returned(keys, s.now, s.now, None)
  {
    t := Stepped(r, s, Answer(id, answer));
    if answer.Ok? && answer.value != [] {
      t := Stepped(r, t, Store(id));
    }
  }

  /** `s` with one caller in the given place. */
  ghost function With(s: Sys, id: Id, p: Phase): Sys {
    s.(callers := s.callers[id := Caller("k", false, p)])
  }

  /** Nothing cached, nobody refreshing, and the last stamp 30 seconds old. */
  ghost predicate Idle(s: Sys, id: Id) {
    && s.cache.None? && s.holder.None? && id !in s.callers
    && (s.lastAttempt.Some? ==> s.lastAttempt.value + MINIMUM_REFRESH_INTERVAL <= s.now)
  }

  /** One caller finding nothing cached, up to the stamp. */
  lemma ToStamp(r: Sys, s: Sys, id: Id)
    requires Reaches(r, s) && Idle(s, id)
    ensures Reaches(r, With(s, id, Cleared).(holder := Some(id)))
  {
    ReachesBy(r, s, Arrive(id, "k"));
    Took(s, id, Waiting, Looking);
    ReachesBy(r, With(s, id, Looking), Look(id));
    Took(s, id, Locked, Waiting);
    ReachesBy(r, With(s, id, Waiting), Acquire(id));
    FromLock(r, s.(holder := Some(id)), id);
  }

  lemma FromLock(r: Sys, s: Sys, id: Id)
    requires Reaches(r, With(s, id, Locked)) && s.cache.None?
    requires s.lastAttempt.Some? ==> s.lastAttempt.value + MINIMUM_REFRESH_INTERVAL <= s.now
    ensures Reaches(r, With(s, id, Cleared))
  {
    Took(s, id, Checking, Locked);
    ReachesBy(r, With(s, id, Locked), Look(id));
    Took(s, id, Cleared, Checking);
    ReachesBy(r, With(s, id, Checking), Check(id));
  }

  lemma Took(h: Sys, id: Id, p: Phase, q: Phase)
    ensures Moved(With(h, id, q), id, p) == With(h, id, p)
  {
    assert With(h, id, q).callers[id := Caller("k", false, p)] == With(h, id, p).callers;
  }

  ghost function After(s: Sys, id: Id, delay: real): Sys {
    With(s, id, Gone).(now := s.now + delay, lastAttempt := Some(s.now), stamps := s.stamps + [s.now],
                       fetches := s.fetches + [Fetch(s.now, s.now + delay)])
  }

  /** The stamp, a pause, the request, and an abandoned wait. */
  lemma FromStamp(r: Sys, s: Sys, id: Id, delay: real)
    requires Reaches(r, With(s, id, Cleared).(holder := Some(id))) && s.holder.None? && delay >= 0.0
    ensures Reaches(r, After(s, id, delay))
  {
    var a := s.(holder := Some(id));
    Took(a, id, Stamped(s.now), Cleared);
    ReachesBy(r, With(a, id, Cleared), Stamp(id));
    StampedOn(r, s, a.(lastAttempt := Some(s.now), stamps := s.stamps + [s.now]), id, delay);
  }

  lemma StampedOn(r: Sys, s: Sys, b: Sys, id: Id, delay: real)
    requires b == s.(holder := Some(id), lastAttempt := Some(s.now), stamps := s.stamps + [s.now])
    requires Reaches(r, With(b, id, Stamped(s.now))) && s.holder.None? && delay >= 0.0
    ensures Reaches(r, After(s, id, delay))
  {
    ReachesBy(r, With(b, id, Stamped(s.now)), Tick(delay));
    FromStart(r, b.(now := s.now + delay), id, s.now);
    assert After(s, id, delay) ==
      With(b, id, Gone).(now := s.now + delay, holder := None, fetches := s.fetches + [Fetch(s.now, s.now + delay)]);
  }

  lemma FromStart(r: Sys, s: Sys, id: Id, stamp: real)
    requires Reaches(r, With(s, id, Stamped(stamp))) && s.holder == Some(id)
    ensures Reaches(r, With(s, id, Gone).(holder := None, fetches := s.fetches + [Fetch(stamp, s.now)]))
  {
    Took(s, id, Fetching, Stamped(stamp));
    ReachesBy(r, With(s, id, Stamped(stamp)), Start(id));
    var d := s.(fetches := s.fetches + [Fetch(stamp, s.now)]);
    Took(d, id, Gone, Fetching);
    ReachesBy(r, With(d, id, Fetching), Abandon(id));
  }

  /** The bound of `FetchesAreSpaced` is met for every delay. */
  lemma RequestsCanBeCloser(lifetime: real, delay: real) returns (events: seq<Event>)
    requires delay >= 0.0
    ensures var s := Run(Init(lifetime), events);
            && |s.fetches| == 2 && s.fetches[0].start - s.fetches[0].stamp == delay
            && s.fetches[1].start - s.fetches[0].start
               == if delay < MINIMUM_REFRESH_INTERVAL then MINIMUM_REFRESH_INTERVAL - delay else 0.0
  {
    var rest := if delay < MINIMUM_REFRESH_INTERVAL then MINIMUM_REFRESH_INTERVAL - delay else 0.0;
    var s := Init(lifetime);
    assert Run(s, []) == s;
    ToStamp(s, s, 0);
    FromStamp(s, s, 0, delay);
    var t := After(s, 0, delay);
    ReachesBy(s, t, Tick(rest));
    var u := t.(now := t.now + rest);
    SecondAttempt(s, u);
    events :| Run(s, events) == After(u, 1, 0.0);
  }

  lemma SecondAttempt(r: Sys, s: Sys)
    requires Reaches(r, s) && Idle(s, 1)
    ensures Reaches(r, After(s, 1, 0.0))
  {
    ToStamp(r, s, 1);
    FromStamp(r, s, 1, 0.0);
  }

  /** In no run does another request follow one sent `delay` after its stamp within 30 seconds. */
  ghost predicate KeepsDistance(lifetime: real, delay: real) {
    forall events, i: nat, j: nat :: PromptPair(lifetime, events, i, j, delay) ==>
      StartGap(lifetime, events, i, j) >= MINIMUM_REFRESH_INTERVAL
  }

  /** Requests `i` and `j` of the run, the first sent `delay` after its stamp. */
  ghost predicate PromptPair(lifetime: real, events: seq<Event>, i: nat, j: nat, delay: real) {
    var fetches := Run(Init(lifetime), events).fetches;
    i < j < |fetches| && fetches[i].start - fetches[i].stamp == delay
  }

  ghost function StartGap(lifetime: real, events: seq<Event>, i: nat, j: nat): real
    requires i < j < |Run(Init(lifetime), events).fetches|
  {
    Run(Init(lifetime), events).fetches[j].start - Run(Init(lifetime), events).fetches[i].start
  }

  /** The 30 seconds are counted from the stamp, so they hold between requests exactly for a request
      sent the moment it was stamped. */
  lemma DistanceNeedsPromptness(lifetime: real, delay: real)
    requires lifetime > 0.0 && delay >= 0.0
    ensures KeepsDistance(lifetime, delay) <==> delay == 0.0
  {
    if delay == 0.0 {
      forall events, i: nat, j: nat | PromptPair(lifetime, events, i, j, delay)
        ensures StartGap(lifetime, events, i, j) >= MINIMUM_REFRESH_INTERVAL
      {
        FetchesAreSpaced(lifetime, events, i, j);
      }
    } else {
      var events := RequestsCanBeCloser(lifetime, delay);
      var fetches := Run(Init(lifetime), events).fetches;
      assert PromptPair(lifetime, events, 0, 1, delay) && StartGap(lifetime, events, 0, 1) < MINIMUM_REFRESH_INTERVAL;
    }
  }
}
