/** Editing the configuration file: lock, open, compare the version token, edit, validate, replace,
    release. crates/flanforge-config/src/edit.rs, document.rs, lock.rs and storage.rs. */
module EditProtocol {
  import opened Base

  const ACQUIRE_ATTEMPTS := 50

  type Text = string

  /** The version token of a text. A constructor is injective, as the digest is taken to be. */
  datatype Token = Digest(text: Text)

  // ---------------------------------------------------------------- taking the lock

  datatype LockError = LockUnwritable | LockUnavailable

  /** `opens` is whether the lock file can be created; `free(i)` answers the i-th try. */
  method AcquireBlocking(opens: bool, free: nat -> bool) returns (r: Result<nat, LockError>)
    ensures r == Err(LockUnwritable) <==> !opens
    ensures r == Err(LockUnavailable) <==> opens && forall i :: 0 <= i < 50 ==> !free(i)
    ensures r.Ok? ==> opens && r.value < 50 && free(r.value) && forall i :: 0 <= i < r.value ==> !free(i)
  {
    if !opens {
      return Err(LockUnwritable);
    }
    for i := 0 to ACQUIRE_ATTEMPTS
      invariant forall j :: 0 <= j < i ==> !free(j)
    {
      if free(i) {
        return Ok(i);
      }
    }
    r := Err(LockUnavailable);
  }

  // ---------------------------------------------------------------- validate, then write

  /** What decoding and validating a text comes to. An unset environment variable leaves the verdict
      to the profiles alone. */
  datatype Verdict = Valid | Invalid | Undecodable | MissingEnvironment(areProfilesValid: bool)

  predicate Accepts(v: Verdict) {
    v.Valid? || (v.MissingEnvironment? && v.areProfilesValid)
  }

  /** How the replacement ends: before the rename, after it, or durably. */
  datatype Replacement = NotReplaced | ReplacedUnsynced | Replaced

  class Disk {
    var text: Text

    constructor (text: Text)
      ensures this.text == text
    {
      this.text := text;
    }
  }

  class ConfigDocument<Raw(==)> {
    const disk: Disk
    var raw: Raw
    var formatted: Text

    constructor (disk: Disk, raw: Raw)
      ensures this.disk == disk && this.raw == raw && this.formatted == disk.text
    {
      this.disk, this.raw, this.formatted := disk, raw, disk.text;
    }

    /** Nothing is written unless the exact text to be written parses and passes; the document follows
        the file only when the whole replacement succeeded. */
    method Save(next: Text, parse: Text -> Option<Raw>, verdict: Raw -> Verdict, ending: Replacement) returns (ok: bool)
      modifies this`raw, this`formatted, disk
      ensures ok <==>
              && parse(next).Some? && ending.Replaced?
              && (verdict(parse(next).value).Valid? || verdict(parse(next).value) == MissingEnvironment(true))
      ensures ok ==> disk.text == formatted == next && parse(next) == Some(raw)
      ensures !ok ==> raw == old(raw) && formatted == old(formatted)
      ensures disk.text ==
              if && parse(next).Some? && !ending.NotReplaced?
                 && (verdict(parse(next).value).Valid? || verdict(parse(next).value) == MissingEnvironment(true))
              then next else old(disk.text)
    {
      var parsed := parse(next);
      if parsed.None? || !Accepts(verdict(parsed.value)) {
        return false;
      }
      if ending.NotReplaced? {
        return false;
      }
      disk.text := next;
      if ending.ReplacedUnsynced? {
        return false;
      }
      raw, formatted := parsed.value, next;
      ok := true;
    }
  }

  // ---------------------------------------------------------------- every interleaving

  type Id = nat

  /** A writer holds the lock from `Locked` to `Renamed`. `Cut` is one whose caller was dropped inside its
      rename: the lock is free, and the rename is still to come. */
  datatype Phase =
    | Waiting | Locked | Opened(text: Text) | Checked(text: Text) | Edited(text: Text, next: Text) | Renamed
    | Cut(text: Text, next: Text) | Done(ok: bool)

  datatype Writer = Writer(token: Token, phase: Phase)

  /** One replacement of the file, by a writer or by hand: the token it was made with, what it was
      computed from, and what it left. */
  datatype Link = Link(writer: Option<Id>, token: Token, before: Text, after: Text)

  datatype Sys = Sys(file: Text, holder: Option<Id>, writers: map<Id, Writer>, links: seq<Link>)

  /** `Begin` carries the token of an earlier unlocked read. `Edit` carries what applying and
      validating the changes came to. `GiveUp` is an error, or a caller dropped outside its rename;
      `Drop` is one dropped inside it, whose rename then lands or fails. A hand edit takes no lock. */
  datatype Event =
    | Begin(id: Id, token: Token) | Acquire(id: Id) | Open(id: Id, readable: bool) | Check(id: Id)
    | Edit(id: Id, next: Option<Text>) | Rename(id: Id, ok: bool) | Sync(id: Id, ok: bool) | GiveUp(id: Id)
    | Drop(id: Id) | Land(id: Id, ok: bool) | HandEdit(text: Text)

  ghost function Init(file: Text): Sys {
    Sys(file, None, map[], [])
  }

  ghost function At(s: Sys, id: Id): Phase {
    if id in s.writers then s.writers[id].phase else Done(false)
  }

  ghost function Moved(s: Sys, id: Id, p: Phase): Sys
    requires id in s.writers
  {
    s.(writers := s.writers[id := s.writers[id].(phase := p)])
  }

  ghost function Ended(s: Sys, id: Id, ok: bool): Sys
    requires id in s.writers
  {
    Moved(s, id, Done(ok)).(holder := if s.holder == Some(id) then None else s.holder)
  }

  /** What the writer's rename does to the file, recorded. */
  ghost function LinkOf(s: Sys, id: Id): Link
    requires At(s, id).Edited? || At(s, id).Cut?
  {
    Link(Some(id), s.writers[id].token, At(s, id).text, At(s, id).next)
  }

  /** The rename, by the holder or late; the writer goes on to `p`. */
  ghost function Replace(s: Sys, id: Id, p: Phase): Sys
    requires At(s, id).Edited? || At(s, id).Cut?
  {
    Moved(s, id, p).(file := At(s, id).next, links := s.links + [LinkOf(s, id)])
  }

  ghost function Next(s: Sys, e: Event): Sys {
    match e
    case Begin(id, token) => if id in s.writers then s else s.(writers := s.writers[id := Writer(token, Waiting)])
    case Acquire(id) => if At(s, id).Waiting? && s.holder.None? then Moved(s, id, Locked).(holder := Some(id)) else s
    case Open(id, readable) =>
      if !At(s, id).Locked? then s else if readable then Moved(s, id, Opened(s.file)) else Ended(s, id, false)
    case Check(id) =>
      if !At(s, id).Opened? then s
      else if s.writers[id].token == Digest(At(s, id).text) then Moved(s, id, Checked(At(s, id).text))
      else Ended(s, id, false)
    case Edit(id, next) =>
      if !At(s, id).Checked? then s
      else if next.Some? then Moved(s, id, Edited(At(s, id).text, next.value))
      else Ended(s, id, false)
    case Rename(id, ok) =>
      if !At(s, id).Edited? then s else if ok then Replace(s, id, Renamed) else Ended(s, id, false)
    case Sync(id, ok) => if At(s, id).Renamed? then Ended(s, id, ok) else s
    case GiveUp(id) => if At(s, id).Cut? || At(s, id).Done? then s else Ended(s, id, false)
    case Drop(id) =>
      if !At(s, id).Edited? then s
      else Moved(s, id, Cut(At(s, id).text, At(s, id).next)).(holder := if s.holder == Some(id) then None else s.holder)
    case Land(id, ok) =>
      if !At(s, id).Cut? then s else if ok then Replace(s, id, Done(false)) else Moved(s, id, Done(false))
    case HandEdit(text) => s.(file := text, links := s.links + [Link(None, Digest(s.file), s.file, text)])
  }

  ghost function Run(s: Sys, events: seq<Event>): Sys {
    if events == [] then s else Next(Run(s, events[..|events| - 1]), events[|events| - 1])
  }

  predicate HoldsLock(p: Phase) {
    p.Locked? || p.Opened? || p.Checked? || p.Edited? || p.Renamed?
  }

  /** What a writer has read. */
  predicate HasRead(p: Phase) {
    p.Opened? || p.Checked? || p.Edited?
  }

  // ---------------------------------------------------------------- one writer at a time

  /** The lock is exclusive, a checked text carries the writer's token, and a writer has a link from its
      rename on and not before. */
  ghost predicate Placed(s: Sys, id: Id, w: Writer) {
    && (HoldsLock(w.phase) ==> s.holder == Some(id))
    && ((w.phase.Checked? || w.phase.Edited? || w.phase.Cut?) ==> w.token == Digest(w.phase.text))
    && (w.phase.Renamed? || w.phase == Done(true) ==> HasLink(s.links, id))
    && (HasLink(s.links, id) ==> w.phase.Renamed? || w.phase.Done?)
  }

  ghost predicate HasLink(links: seq<Link>, id: Id) {
    exists i :: 0 <= i < |links| && links[i].writer == Some(id)
  }

  ghost predicate Sound(s: Sys) {
    && (forall id :: id in s.writers ==> Placed(s, id, s.writers[id]))
    && (forall i :: 0 <= i < |s.links| ==>
       (s.links[i].writer.Some? ==> s.links[i].writer.value in s.writers) &&
           s.links[i].token == Digest(s.links[i].before))
  }

  lemma MovedSound(s: Sys, id: Id, w: Writer, t: Sys)
    requires Sound(s) && id in s.writers
    requires t == s.(writers := s.writers[id := w], holder := t.holder)
    requires t.holder == s.holder || (s.holder == Some(id) && t.holder.None?) ||
        (s.holder.None? && t.holder == Some(id))
    requires Placed(t, id, w)
    ensures Sound(t)
  {
    forall o | o in t.writers && o != id ensures Placed(t, o, t.writers[o]) {
      assert Placed(s, o, s.writers[o]);
    }
  }

  lemma ReplaceSound(s: Sys, id: Id, p: Phase)
    requires Sound(s) && ((At(s, id).Edited? && p == Renamed) || (At(s, id).Cut? && p == Done(false)))
    ensures Sound(Replace(s, id, p))
  {
    var t := Replace(s, id, p);
    assert Placed(s, id, s.writers[id]);
    assert t.links[|s.links|].writer == Some(id);
    forall o | o in t.writers && o != id ensures Placed(t, o, t.writers[o]) {
      assert Placed(s, o, s.writers[o]);
      MoreLinks(s.links, t.links[|s.links|], o);
    }
  }

  lemma MoreLinks(links: seq<Link>, l: Link, id: Id)
    requires l.writer != Some(id)
    ensures HasLink(links + [l], id) <==> HasLink(links, id)
  {
    if i :| 0 <= i < |links + [l]| && (links + [l])[i].writer == Some(id) {
      assert links[i].writer == Some(id);
    }
    if i :| 0 <= i < |links| && links[i].writer == Some(id) {
      assert (links + [l])[i].writer == Some(id);
    }
  }

  lemma BeginSound(s: Sys, id: Id, token: Token)
    requires Sound(s) && id !in s.writers
    ensures Sound(Next(s, Begin(id, token)))
  {
    var t := Next(s, Begin(id, token));
    forall o | o in t.writers && o != id ensures Placed(t, o, t.writers[o]) {
      assert Placed(s, o, s.writers[o]);
    }
  }

  lemma NextSound(s: Sys, e: Event)
    requires Sound(s)
    ensures Sound(Next(s, e))
  {
    var t := Next(s, e);
    if t == s {
    } else if e.HandEdit? {
      forall o | o in t.writers ensures Placed(t, o, t.writers[o]) {
        assert Placed(s, o, s.writers[o]);
        MoreLinks(s.links, t.links[|s.links|], o);
      }
    } else if e.Begin? {
      BeginSound(s, e.id, e.token);
    } else if Renames(s, e) {
      ReplaceSound(s, e.id, if e.Rename? then Renamed else Done(false));
    } else {
      assert Placed(s, e.id, s.writers[e.id]);
      MovedSound(s, e.id, t.writers[e.id], t);
    }
  }

  /** The event puts a writer's text in the file: the holder's rename, or a late one. */
  ghost predicate Renames(s: Sys, e: Event) {
    (e.Rename? && e.ok && At(s, e.id).Edited?) || (e.Land? && e.ok && At(s, e.id).Cut?)
  }

  lemma {:induction false} RunSound(file: Text, events: seq<Event>)
    ensures Sound(Run(Init(file), events))
  {
    if events != [] {
      RunSound(file, events[..|events| - 1]);
      NextSound(Run(Init(file), events[..|events| - 1]), events[|events| - 1]);
    }
  }

  /** In every run: the file changes by a hand edit, by the one writer that holds the lock, or by the late
      rename of a writer whose caller was dropped; both carried a token that named the text they read. A
      writer short of its rename has left no link. A failed directory sync comes after it: that edit
      reports an error with the file already replaced. */
  lemma OnlyRenamesWrite(file: Text, events: seq<Event>, e: Event)
    ensures var s := Run(Init(file), events);
            var t := Next(s, e);
            t.file != s.file ==>
              || e.HandEdit?
              || (Renames(s, e) && s.writers[e.id].token == Digest(At(s, e.id).text) && t.file == At(s, e.id).next
                  && (s.holder == Some(e.id) || At(s, e.id).Cut?))
    ensures var s := Run(Init(file), events);
            forall id :: id in s.writers && !At(s, id).Renamed? && !At(s, id).Done? ==> !HasLink(s.links, id)
  {
    RunSound(file, events);
    var s := Run(Init(file), events);
    forall id | id in s.writers && !At(s, id).Renamed? && !At(s, id).Done? ensures !HasLink(s.links, id) {
      assert Placed(s, id, s.writers[id]);
    }
    if Renames(s, e) {
      assert Placed(s, e.id, s.writers[e.id]);
    }
  }

  // ---------------------------------------------------------------- the chain

  /** Every replacement was computed from what the one before it left. */
  ghost predicate Chained(s: Sys, first: Text) {
    Continuous(s.links, first) && s.file == Left(s.links, first)
  }

  ghost predicate Continuous(links: seq<Link>, first: Text) {
    forall i :: 0 <= i < |links| ==> links[i].before == Left(links[..i], first)
  }

  /** The text the replacements leave. */
  ghost function Left(links: seq<Link>, first: Text): Text {
    if links == [] then first else links[|links| - 1].after
  }

  lemma OneMore(links: seq<Link>, l: Link, first: Text)
    requires Continuous(links, first) && l.before == Left(links, first)
    ensures Continuous(links + [l], first)
  {
    forall i | 0 <= i < |links + [l]| ensures (links + [l])[i].before == Left((links + [l])[..i], first) {
      assert (links + [l])[..i] == links[..i];
      assert i == |links| ==> links[..i] == links;
    }
  }

  /** A rename, the holder's or a late one, over a text other than the one it was computed from. */
  ghost predicate Overwrites(s: Sys, e: Event) {
    Renames(s, e) && At(s, e.id).text != s.file
  }

  /** What a step adds to the links, and that the file is what the last one left. */
  lemma NextLinks(s: Sys, first: Text, e: Event)
    requires s.file == Left(s.links, first)
    ensures Next(s, e).file == Left(Next(s, e).links, first)
    ensures Continuous(Next(s, e).links, first) <==> Continuous(s.links, first) && !Overwrites(s, e)
  {
    if Renames(s, e) {
      LinkedExactly(s.links, LinkOf(s, e.id), first);
    } else if e.HandEdit? {
      LinkedExactly(s.links, Link(None, Digest(s.file), s.file, e.text), first);
    }
  }

  lemma LinkedExactly(links: seq<Link>, l: Link, first: Text)
    ensures Continuous(links + [l], first) <==> Continuous(links, first) && l.before == Left(links, first)
  {
    var more := links + [l];
    if Continuous(links, first) && l.before == Left(links, first) {
      OneMore(links, l, first);
    }
    if Continuous(more, first) {
      assert more[..|links|] == links && more[|links|] == l;
      forall i | 0 <= i < |links| ensures links[i].before == Left(links[..i], first) {
        assert more[..i] == links[..i] && more[i] == links[i];
      }
    }
  }

  ghost predicate NeverOverwrites(s: Sys, events: seq<Event>) {
    forall n :: 0 <= n < |events| ==> !Overwrites(Run(s, events[..n]), events[n])
  }

  lemma NeverOverwritesStep(s: Sys, events: seq<Event>, e: Event)
    ensures NeverOverwrites(s, events + [e]) <==> NeverOverwrites(s, events) && !Overwrites(Run(s, events), e)
  {
    var more := events + [e];
    assert more[..|events|] == events && more[|events|] == e;
    forall n | 0 <= n < |events| ensures more[..n] == events[..n] && more[n] == events[n] {
    }
    if NeverOverwrites(s, more) {
      assert !Overwrites(Run(s, more[..|events|]), more[|events|]);
      forall n | 0 <= n < |events| ensures !Overwrites(Run(s, events[..n]), events[n]) {
        assert !Overwrites(Run(s, more[..n]), more[n]);
      }
    }
  }

  /** In every run, the replacements form one chain exactly when no step of it was a rename over a text
      other than the one it was computed from. Hand edits never break it by themselves: they are computed
      from what they replace. */
  lemma {:induction false} ChainedExactly(file: Text, events: seq<Event>)
    ensures Run(Init(file), events).file == Left(Run(Init(file), events).links, file)
    ensures Chained(Run(Init(file), events), file) <==> NeverOverwrites(Init(file), events)
  {
    if events != [] {
      var before, e := events[..|events| - 1], events[|events| - 1];
      assert events == before + [e];
      ChainedExactly(file, before);
      ChainedStep(Init(file), file, before, e);
    }
  }

  lemma ChainedStep(s0: Sys, first: Text, before: seq<Event>, e: Event)
    requires Run(s0, before).file == Left(Run(s0, before).links, first)
    requires Chained(Run(s0, before), first) <==> NeverOverwrites(s0, before)
    ensures Next(Run(s0, before), e).file == Left(Next(Run(s0, before), e).links, first)
    ensures Chained(Next(Run(s0, before), e), first) <==> NeverOverwrites(s0, before + [e])
  {
    NextLinks(Run(s0, before), first, e);
    NeverOverwritesStep(s0, before, e);
  }

  /** What a writer has read is what the file still holds. */
  ghost predicate Current(s: Sys) {
    forall id :: id in s.writers && HasRead(s.writers[id].phase) ==> s.writers[id].phase.text == s.file
  }

  /** A change made without the lock keeps clear of those made with it: hand edits and late renames come
      while no writer holds the lock, and a late rename finds the text it was computed from. */
  ghost predicate KeepsClear(s: Sys, e: Event) {
    && (e.HandEdit? ==> s.holder.None?)
    && (e.Land? && Renames(s, e) ==> s.holder.None? && s.file == At(s, e.id).text)
  }

  ghost predicate Considerate(file: Text, events: seq<Event>) {
    forall n :: 0 <= n < |events| ==> KeepsClear(Run(Init(file), events[..n]), events[n])
  }

  lemma PrefixConsiderate(file: Text, events: seq<Event>)
    requires events != [] && Considerate(file, events)
    ensures Considerate(file, events[..|events| - 1])
    ensures KeepsClear(Run(Init(file), events[..|events| - 1]), events[|events| - 1])
  {
    var before := events[..|events| - 1];
    forall n | 0 <= n < |before| ensures KeepsClear(Run(Init(file), before[..n]), before[n]) {
      assert before[n] == events[n] && before[..n] == events[..n];
    }
  }

  lemma ReplaceCurrent(s: Sys, e: Event)
    requires Sound(s) && Renames(s, e) && KeepsClear(s, e)
    ensures Current(Next(s, e))
  {
    assert Placed(s, e.id, s.writers[e.id]);
    forall o | o in s.writers && o != e.id ensures !HasRead(s.writers[o].phase) {
      assert Placed(s, o, s.writers[o]);
    }
  }

  lemma HandCurrent(s: Sys, text: Text)
    requires Sound(s) && s.holder.None?
    ensures Current(Next(s, HandEdit(text)))
  {
    forall o | o in s.writers ensures !HasRead(s.writers[o].phase) {
      assert Placed(s, o, s.writers[o]);
    }
  }

  /** Every step but a hand edit and a rename leaves the file as it was: a refusal, an invalid result, a
      failed rename, and a writer that gives up or is dropped, until a late rename lands. What writers
      under the lock have read is then still what it holds. */
  lemma RefusalWritesNothing(s: Sys, e: Event)
    requires !e.HandEdit? && !Renames(s, e)
    ensures Next(s, e).file == s.file && Next(s, e).links == s.links && (Current(s) ==> Current(Next(s, e)))
  {
    var t := Next(s, e);
    if Current(s) {
      forall o | o in t.writers && HasRead(t.writers[o].phase) ensures t.writers[o].phase.text == s.file {
        if o in s.writers && HasRead(s.writers[o].phase) {
          assert s.writers[o].phase.text == s.file;
        }
      }
    }
  }

  lemma NextCurrent(s: Sys, e: Event)
    requires Sound(s) && Current(s) && KeepsClear(s, e)
    ensures Current(Next(s, e))
  {
    if e.HandEdit? {
      HandCurrent(s, e.text);
    } else if Renames(s, e) {
      ReplaceCurrent(s, e);
    } else {
      RefusalWritesNothing(s, e);
    }
  }

  /** In every run whose changes without the lock keep clear of it, the replacements form one chain from
      the first text to the current one, and each writer's token names exactly the text its predecessor
      left. */
  lemma {:induction false} EditsFormAChain(file: Text, events: seq<Event>)
    requires Considerate(file, events)
    ensures var s := Run(Init(file), events);
            Sound(s) && Chained(s, file) && Current(s)
  {
    if events != [] {
      var s, e := Run(Init(file), events[..|events| - 1]), events[|events| - 1];
      PrefixConsiderate(file, events);
      EditsFormAChain(file, events[..|events| - 1]);
      NextSound(s, e);
      NextCurrent(s, e);
      NextLinks(s, file, e);
      if e.Rename? && Renames(s, e) {
        assert HasRead(s.writers[e.id].phase);
      }
    }
  }

  /** Of two edits made with one token, the second went through only because the text it names was
      back: the edits in between, and for neighbours the first itself, left it as it was. */
  lemma OneTokenOneText(file: Text, events: seq<Event>, i: nat, j: nat)
    requires Considerate(file, events)
    requires i < j < |Run(Init(file), events).links|
    ensures var links := Run(Init(file), events).links;
            && (links[i].token == links[j].token <==> links[j - 1].after == links[i].before)
            && (j == i + 1 && links[i].token == links[j].token ==> links[i].after == links[i].before)
  {
    EditsFormAChain(file, events);
    var s := Run(Init(file), events);
    assert Named(s.links);
    OneToken(s.links, file, i, j);
  }

  /** Every token names the text its link was computed from. */
  ghost predicate Named(links: seq<Link>) {
    forall i :: 0 <= i < |links| ==> links[i].token == Digest(links[i].before)
  }

  lemma OneToken(links: seq<Link>, first: Text, i: nat, j: nat)
    requires i < j < |links| && Continuous(links, first) && Named(links)
    ensures links[i].token == links[j].token <==> links[j - 1].after == links[i].before
  {
    assert links[j].before == Left(links[..j], first) == links[j - 1].after;
  }

  // ---------------------------------------------------------------- changes under the lock

  /** The text the last change made without the lock left, if there was one. */
  ghost function LastForeign(s: Sys, events: seq<Event>): Text {
    if events == [] then s.file
    else
      var before, e := events[..|events| - 1], events[|events| - 1];
      if e.HandEdit? then e.text
      else if e.Land? && Renames(Run(s, before), e) then At(Run(s, before), e.id).next
      else LastForeign(s, before)
  }

  /** While a writer is past its read, only hand edits and late renames change the file. */
  lemma {:induction false} HeldFile(s: Sys, events: seq<Event>, id: Id)
    requires Sound(s) && id in s.writers && HasRead(At(s, id))
    ensures var t := Run(s, events);
            && Sound(t) && id in t.writers
            && (At(t, id).Renamed? || At(t, id).Cut? || At(t, id).Done?
                || (HasRead(At(t, id)) && At(t, id).text == At(s, id).text && t.file == LastForeign(s, events)))
  {
    if events != [] {
      var before, e := events[..|events| - 1], events[|events| - 1];
      HeldFile(s, before, id);
      var t := Run(s, before);
      NextSound(t, e);
      HeldStep(t, e, id);
    }
  }

  lemma HeldStep(s: Sys, e: Event, id: Id)
    requires Sound(s) && id in s.writers
    ensures id in Next(s, e).writers
    ensures HasRead(At(s, id)) ==> (At(Next(s, e), id).Renamed? || At(Next(s, e), id).Cut? || At(Next(s, e), id).Done?
                || (HasRead(At(Next(s, e), id)) && At(Next(s, e), id).text == At(s, id).text))
    ensures At(s, id).Renamed? || At(s, id).Cut? || At(s, id).Done? ==>
              At(Next(s, e), id).Renamed? || At(Next(s, e), id).Cut? || At(Next(s, e), id).Done?
  {
    assert Placed(s, id, s.writers[id]);
  }

  /** With changes outside the lock at any time: a writer's rename replaces the very text its token names
      exactly when no hand edit and no late rename came after its read, or the last of them put the text
      back. Otherwise that change is overwritten unseen. */
  lemma WhenEditsAreLost(file: Text, events: seq<Event>, id: Id, more: seq<Event>)
    requires var s := Run(Init(file), events);
             At(s, id) == Opened(s.file) && At(Run(s, more), id).Edited?
    ensures var s := Run(Init(file), events);
            var t := Run(s, more);
            t.writers[id].token == Digest(t.file) <==> LastForeign(s, more) == s.file
  {
    RunSound(file, events);
    var s := Run(Init(file), events);
    HeldFile(s, more, id);
    var t := Run(s, more);
    assert Placed(t, id, t.writers[id]);
  }

  // ---------------------------------------------------------------- two runs

  ghost predicate Reaches(s: Sys, t: Sys) {
    exists events :: Run(s, events) == t
  }

  lemma ReachesBy(s: Sys, t: Sys, e: Event)
    requires Reaches(s, t)
    ensures Reaches(s, Next(t, e))
  {
    var events :| Run(s, events) == t;
    assert (events + [e])[..|events + [e]| - 1] == events;
    assert Run(s, events + [e]) == Next(t, e);
  }

  ghost function With(s: Sys, id: Id, token: Token, p: Phase): Sys {
    s.(writers := s.writers[id := Writer(token, p)])
  }

  lemma Took(s: Sys, id: Id, token: Token, p: Phase, q: Phase)
    ensures Moved(With(s, id, token, p), id, q) == With(s, id, token, q)
  {
    assert With(s, id, token, p).writers[id := Writer(token, q)] == With(s, id, token, q).writers;
  }

  /** A writer with the right token, up to its rename. */
  lemma ToEdited(r: Sys, s: Sys, id: Id, next: Text)
    requires Reaches(r, s) && s.holder.None? && id !in s.writers
    ensures Reaches(r, With(s, id, Digest(s.file), Edited(s.file, next)).(holder := Some(id)))
  {
    var token := Digest(s.file);
    ReachesBy(r, s, Begin(id, token));
    Took(s, id, token, Waiting, Locked);
    ReachesBy(r, With(s, id, token, Waiting), Acquire(id));
    var h := s.(holder := Some(id));
    Took(h, id, token, Locked, Opened(s.file));
    ReachesBy(r, With(h, id, token, Locked), Open(id, true));
    Took(h, id, token, Opened(s.file), Checked(s.file));
    ReachesBy(r, With(h, id, token, Opened(s.file)), Check(id));
    Took(h, id, token, Checked(s.file), Edited(s.file, next));
    ReachesBy(r, With(h, id, token, Checked(s.file)), Edit(id, Some(next)));
  }

  lemma FromEdited(r: Sys, s: Sys, id: Id, token: Token, text: Text, next: Text)
    requires Reaches(r, With(s, id, token, Edited(text, next)).(holder := Some(id))) && s.holder.None?
    ensures Reaches(r, With(s, id, token, Done(true)).(file := next,
        links := s.links + [Link(Some(id), token, text, next)]))
  {
    var h := s.(holder := Some(id));
    Took(h, id, token, Edited(text, next), Renamed);
    ReachesBy(r, With(h, id, token, Edited(text, next)), Rename(id, true));
    var w := h.(file := next, links := s.links + [Link(Some(id), token, text, next)]);
    Took(w, id, token, Renamed, Done(true));
    ReachesBy(r, With(w, id, token, Renamed), Sync(id, true));
  }

  /** One step further. */
  lemma Stepped(r: Sys, s: Sys, e: Event) returns (t: Sys)
    requires Reaches(r, s)
    ensures t == Next(s, e) && Reaches(r, t)
  {
    ReachesBy(r, s, e);
    t := Next(s, e);
  }

  /** A writer left to itself: the edit is in place exactly when the file could be read, the token named
      it, the result was valid and the rename went through; it is reported as done exactly when the
      directory was synced as well; and the lock is free again whatever happened. */
  lemma AloneAsEdit(s: Sys, id: Id, readable: bool, next: Option<Text>, renames: bool, syncs: bool) returns (t: Sys)
    requires At(s, id).Waiting? && s.holder.None?
    ensures Reaches(s, t) && t.holder.None?
    ensures var passes := readable && s.writers[id].token == Digest(s.file) && next.Some?;
            && t.file == (if passes && renames then next.value else s.file)
            && |t.links| == |s.links| + (if passes && renames then 1 else 0)
            && At(t, id) == Done(passes && renames && syncs)
  {
    assert Run(s, []) == s;
    var a := Stepped(s, s, Acquire(id));
    t := Stepped(s, a, Open(id, readable));
    if readable {
      t := Stepped(s, t, Check(id));
      if s.writers[id].token == Digest(s.file) {
        t := AloneChecked(s, t, id, next, renames, syncs);
      }
    }
  }

  lemma AloneChecked(r: Sys, s: Sys, id: Id, next: Option<Text>, renames: bool, syncs: bool) returns (t: Sys)
    requires Reaches(r, s) && At(s, id).Checked? && s.holder == Some(id)
    ensures Reaches(r, t) && t.holder.None?
    ensures t.file == if next.Some? && renames then next.value else s.file
    ensures |t.links| == |s.links| + if next.Some? && renames then 1 else 0
    ensures At(t, id) == Done(next.Some? && renames && syncs)
  {
    t := Stepped(r, s, Edit(id, next));
    if next.Some? {
      t := Stepped(r, t, Rename(id, renames));
      if renames {
        t := Stepped(r, t, Sync(id, syncs));
      }
    }
  }

  /** In every run the lock is held by a writer that is at work, and comes back if that one gives up. */
  lemma {:induction false} LockComesBack(file: Text, events: seq<Event>)
    ensures var s := Run(Init(file), events);
            s.holder.Some? ==>
              && HoldsLock(At(s, s.holder.value))
              && Next(s, GiveUp(s.holder.value)) ==
                 s.(holder := None, writers := Next(s, GiveUp(s.holder.value)).writers)
              && At(Next(s, GiveUp(s.holder.value)), s.holder.value) == Done(false)
  {
    if events != [] {
      LockComesBack(file, events[..|events| - 1]);
      NextHolder(Run(Init(file), events[..|events| - 1]), events[|events| - 1]);
    }
  }

  lemma NextHolder(s: Sys, e: Event)
    requires s.holder.Some? ==> HoldsLock(At(s, s.holder.value))
    ensures Next(s, e).holder.Some? ==> HoldsLock(At(Next(s, e), Next(s, e).holder.value))
  {
  }

  /** A hand edit between a writer's read and its rename is lost, and the chain breaks. */
  lemma HandEditCanBeLost(first: Text, hand: Text, next: Text) returns (s: Sys)
    requires first != hand
    ensures Reaches(Init(first), s) && s.file == next
    ensures |s.links| == 2 && s.links[0].after == hand && s.links[1].before == first && !Chained(s, first)
  {
    var i := Init(first);
    assert Run(i, []) == i;
    ToEdited(i, i, 0, next);
    var held := With(i, 0, Digest(first), Edited(first, next)).(holder := Some(0));
    ReachesBy(i, held, HandEdit(hand));
    var edited := i.(file := hand, links := [Link(None, Digest(first), first, hand)]);
    assert Next(held, HandEdit(hand)) == With(edited, 0, Digest(first), Edited(first, next)).(holder := Some(0));
    FromEdited(i, edited, 0, Digest(first), first, next);
    s := With(edited, 0, Digest(first), Done(true))
         .(file := next, links := edited.links + [Link(Some(0), Digest(first), first, next)]);
    assert Left(s.links[..1], first) == hand;
  }

  lemma WriterRuns(r: Sys, s: Sys, id: Id, next: Text) returns (t: Sys)
    requires Reaches(r, s) && s.holder.None? && id !in s.writers
    ensures Reaches(r, t) && t.holder.None? && t.file == next && t.writers.Keys == s.writers.Keys + {id}
    ensures t.links == s.links + [Link(Some(id), Digest(s.file), s.file, next)]
  {
    ToEdited(r, s, id, next);
    FromEdited(r, s, id, Digest(s.file), s.file, next);
    t := With(s, id, Digest(s.file), Done(true)).(file := next,
        links := s.links + [Link(Some(id), Digest(s.file), s.file, next)]);
  }

  /** A token is about the text and not about the edit: once the text is back, so is the token. */
  lemma TokenOutlivesAnEdit(first: Text, second: Text, third: Text) returns (s: Sys)
    requires first != second
    ensures Reaches(Init(first), s) && |s.links| == 3 && s.file == third
    ensures s.links[0].token == s.links[2].token && s.links[0].after != s.links[0].before
  {
    var i := Init(first);
    assert Run(i, []) == i;
    var a := WriterRuns(i, i, 0, second);
    var b := WriterRuns(i, a, 1, first);
    s := WriterRuns(i, b, 2, third);
  }

  /** Two writers and no hand edit: the first is dropped inside its rename, the second reads the old text
      under the free lock, the first one's rename lands, and the second overwrites it. Both edits held a
      valid token, and the chain breaks. */
  lemma DroppedRenameBreaksTheChain(first: Text, lost: Text, next: Text) returns (s: Sys)
    requires first != lost
    ensures Reaches(Init(first), s) && s.file == next && !Chained(s, first)
    ensures s.links == [Link(Some(0), Digest(first), first, lost), Link(Some(1), Digest(first), first, next)]
  {
    var i := Init(first);
    assert Run(i, []) == i;
    ToEdited(i, i, 0, lost);
    var held := With(i, 0, Digest(first), Edited(first, lost)).(holder := Some(0));
    ReachesBy(i, held, Drop(0));
    var cut := With(i, 0, Digest(first), Cut(first, lost));
    Took(i, 0, Digest(first), Edited(first, lost), Cut(first, lost));
    assert Next(held, Drop(0)) == cut;
    ToEdited(i, cut, 1, next);
    s := LandedUnder(i, cut, first, lost, next);
    assert Left(s.links[..1], first) == lost;
  }

  lemma LandedUnder(r: Sys, cut: Sys, first: Text, lost: Text, next: Text) returns (s: Sys)
    requires cut == With(Init(first), 0, Digest(first), Cut(first, lost))
    requires Reaches(r, With(cut, 1, Digest(first), Edited(first, next)).(holder := Some(1)))
    ensures Reaches(r, s) && s.file == next
    ensures s.links == [Link(Some(0), Digest(first), first, lost), Link(Some(1), Digest(first), first, next)]
  {
    var held := With(cut, 1, Digest(first), Edited(first, next)).(holder := Some(1));
    ReachesBy(r, held, Land(0, true));
    var link := Link(Some(0), Digest(first), first, lost);
    var landed := With(cut, 0, Digest(first), Done(false)).(file := lost, links := [link]);
    var after := With(landed, 1, Digest(first), Edited(first, next)).(holder := Some(1));
    assert Next(held, Land(0, true)).writers == after.writers;
    assert Next(held, Land(0, true)) == after;
    FromEdited(r, landed, 1, Digest(first), first, next);
    s := With(landed, 1, Digest(first), Done(true))
         .(file := next, links := landed.links + [Link(Some(1), Digest(first), first, next)]);
  }
}
