/** The request-head deadline of the HTTP ingress: crates/flanforge-router/src/listener.rs. A head
    ends at the empty line, section 2.1 of RFC 9112. */
module RequestHead {
  import opened Base

  const CR: byte := 13
  const LF: byte := 10
  const TERMINATOR: seq<byte> := [CR, LF, CR, LF]

  // ---------------------------------------------------------------- the streaming matcher

  /** The simple question: the empty line stands somewhere in the text. */
  ghost predicate HasTerminator(text: seq<byte>) {
    exists at :: OccursAt(TERMINATOR, text, at)
  }

  function Expected(i: nat): byte {
    if i % 2 == 0 then CR else LF
  }

  /** The first `n` bytes of the terminator end the text. */
  predicate Ends(text: seq<byte>, n: nat)
    decreases n
  {
    n == 0 || (text != [] && text[|text| - 1] == Expected(n - 1) && Ends(text[..|text| - 1], n - 1))
  }

  /** `matched` is the longest beginning of the terminator that ends the text. */
  predicate Tracks(text: seq<byte>, matched: nat) {
    matched < 4 && Ends(text, matched) &&
    (matched < 1 ==> !Ends(text, 1)) && (matched < 2 ==> !Ends(text, 2)) && (matched < 3 ==> !Ends(text, 3)) &&
        !Ends(text, 4)
  }

  /** One byte of the matcher; a mismatch restarts at one when the byte opens the terminator. */
  function Advance(matched: nat, b: byte): (r: nat)
    requires matched < 4
  {
    if Expected(matched) == b then matched + 1 else if b == CR then 1 else 0
  }

  lemma EndsStep(text: seq<byte>, b: byte, n: nat)
    ensures Ends(text + [b], n + 1) <==> Ends(text, n) && Expected(n) == b
  {
    assert (text + [b])[..|text|] == text;
  }

  /** The restart rule loses no match and invents none. */
  lemma AdvanceTracks(text: seq<byte>, matched: nat, b: byte)
    requires Tracks(text, matched)
    ensures var m := Advance(matched, b); if m == 4 then Ends(text + [b], 4) else Tracks(text + [b], m)
  {
    EndsStep(text, b, 0);
    EndsStep(text, b, 1);
    EndsStep(text, b, 2);
    EndsStep(text, b, 3);
  }

  lemma {:induction false} EndsBytes(text: seq<byte>, n: nat)
    ensures Ends(text, n) <==> n <= |text| && forall i :: 0 <= i < n ==> text[|text| - n + i] == Expected(i)
    decreases n
  {
    if n > 0 && text != [] {
      EndsBytes(text[..|text| - 1], n - 1);
    }
  }

  lemma EndsIsSuffix(text: seq<byte>, n: nat)
    requires n == |TERMINATOR|
    ensures Ends(text, n) <==> n <= |text| && text[|text| - n..] == TERMINATOR
  {
    EndsBytes(text, n);
    if n <= |text| {
      var tail := text[|text| - n..];
      assert forall i :: 0 <= i < n ==> tail[i] == text[|text| - n + i];
      assert forall i :: 0 <= i < n ==> TERMINATOR[i] == Expected(i);
      assert Ends(text, n) ==> tail == TERMINATOR;
    }
  }

  lemma TerminatorGrows(text: seq<byte>, more: seq<byte>)
    ensures HasTerminator(text) ==> HasTerminator(text + more)
  {
    if at :| OccursAt(TERMINATOR, text, at) {
      assert (text + more)[at..at + 4] == text[at..at + 4];
      assert OccursAt(TERMINATOR, text + more, at);
    }
  }

  lemma TerminatorArrives(text: seq<byte>, b: byte)
    ensures HasTerminator(text + [b]) <==> HasTerminator(text) || Ends(text + [b], 4)
  {
    TerminatorGrows(text, [b]);
    var t := text + [b];
    EndsIsSuffix(t, 4);
    if Ends(t, 4) {
      assert t[|t| - 4..|t|] == t[|t| - 4..];
      assert OccursAt(TERMINATOR, t, |t| - 4);
    }
    if at :| OccursAt(TERMINATOR, t, at) {
      TerminatorWhere(text, b, at);
    }
  }

  lemma TerminatorWhere(text: seq<byte>, b: byte, at: int)
    requires OccursAt(TERMINATOR, text + [b], at)
    ensures HasTerminator(text) || Ends(text + [b], 4)
  {
    var t := text + [b];
    if at + 4 <= |text| {
      assert text[at..at + 4] == t[at..at + 4];
      assert OccursAt(TERMINATOR, text, at);
    } else {
      EndsIsSuffix(t, 4);
      assert at + 4 == |t| && at == |t| - 4;
      assert t[at..at + 4] == t[at..];
    }
  }

  /** The matcher over one read: None once the terminator is complete. */
  function Scanned(matched: nat, bytes: seq<byte>): (r: Option<nat>)
    requires matched < 4
    ensures r.Some? ==> r.value < 4
    decreases |bytes|
  {
    if bytes == [] then Some(matched)
    else if Advance(matched, bytes[0]) == 4 then None
    else Scanned(Advance(matched, bytes[0]), bytes[1..])
  }

  /** Whatever was read before, the matcher completes in this read exactly when the terminator is
      in the text by the end of it. */
  lemma {:induction false} ScannedFinds(text: seq<byte>, matched: nat, bytes: seq<byte>)
    requires Tracks(text, matched) && !HasTerminator(text)
    ensures Scanned(matched, bytes).None? <==> HasTerminator(text + bytes)
    ensures Scanned(matched, bytes).Some? ==> Tracks(text + bytes, Scanned(matched, bytes).value)
    decreases |bytes|
  {
    if bytes == [] {
      assert text + bytes == text;
    } else {
      var b := bytes[0];
      AdvanceTracks(text, matched, b);
      TerminatorArrives(text, b);
      assert text + bytes == text + [b] + bytes[1..];
      if Advance(matched, b) == 4 {
        TerminatorGrows(text + [b], bytes[1..]);
      } else {
        ScannedFinds(text + [b], Advance(matched, b), bytes[1..]);
      }
    }
  }

  function Joined(chunks: seq<seq<byte>>): seq<byte> {
    if chunks == [] then [] else Joined(chunks[..|chunks| - 1]) + chunks[|chunks| - 1]
  }

  /** The matcher fed one read after another from a fresh head. */
  function ScannedReads(chunks: seq<seq<byte>>): (r: Option<nat>)
    ensures r.Some? ==> r.value < 4
  {
    if chunks == [] then Some(0)
    else
      var before := ScannedReads(chunks[..|chunks| - 1]);
      if before.None? then None else Scanned(before.value, chunks[|chunks| - 1])
  }

  /** However the stream is split into reads, the head is complete after some of them exactly when
      the terminator is a contiguous part of what they carried together. */
  lemma {:induction false} SplittingDoesNotMatter(chunks: seq<seq<byte>>)
    ensures ScannedReads(chunks).None? <==> HasTerminator(Joined(chunks))
    ensures ScannedReads(chunks).Some? ==> Tracks(Joined(chunks), ScannedReads(chunks).value)
  {
    if chunks == [] {
      NothingYet();
    } else {
      var init, last := chunks[..|chunks| - 1], chunks[|chunks| - 1];
      SplittingDoesNotMatter(init);
      if ScannedReads(init).None? {
        TerminatorGrows(Joined(init), last);
      } else {
        ScannedFinds(Joined(init), ScannedReads(init).value, last);
      }
    }
  }

  lemma NothingYet()
    ensures Tracks([], 0) && !HasTerminator([])
  {
  }

  /** The first read to complete the head is the one in which the terminator first appears. */
  lemma FirstCompleteRead(chunks: seq<seq<byte>>, i: nat)
    requires i < |chunks|
    ensures ScannedReads(chunks[..i]).Some? && ScannedReads(chunks[..i + 1]).None? <==>
            !HasTerminator(Joined(chunks[..i])) && HasTerminator(Joined(chunks[..i + 1]))
  {
    SplittingDoesNotMatter(chunks[..i]);
    SplittingDoesNotMatter(chunks[..i + 1]);
  }

  // ---------------------------------------------------------------- one connection

  /** A pending head: how much of the terminator has arrived and when patience ends. */
  datatype Head = Head(matched: nat, deadline: nat, isFirst: bool)

  datatype Conn = Conn(timeout: nat, head: Option<Head>)

  datatype Event =
    | Read(at: nat, bytes: seq<byte>)   // the stream delivers bytes to a poll
    | Quiet(at: nat)                    // a poll finds nothing to deliver
    | Write(at: nat)

  datatype Outcome = Delivered(bytes: seq<byte>) | Pending | TimedOut | EndOfStream | Written

  function Opened(timeout: nat, now: nat): Conn {
    Conn(timeout, Some(Head(0, now + timeout, true)))
  }

  predicate Expired(c: Conn, now: nat) {
    c.head.Some? && c.head.value.deadline <= now
  }

  function Refusal(isFirst: bool): Outcome {
    if isFirst then TimedOut else EndOfStream
  }

  predicate Sound(c: Conn) {
    c.head.Some? ==> c.head.value.matched < 4
  }

  function Step(c: Conn, e: Event): (r: (Conn, Outcome))
    requires Sound(c)
    ensures Sound(r.0)
  {
    match e
    case Read(now, bytes) =>
      if Expired(c, now) then (c, Refusal(c.head.value.isFirst))
      else if c.head.None? then (c, Delivered(bytes))
      else
        var m := Scanned(c.head.value.matched, bytes);
        (c.(head := if m.None? then None else Some(c.head.value.(matched := m.value))), Delivered(bytes))
    case Quiet(now) =>
      if Expired(c, now) then (c, Refusal(c.head.value.isFirst)) else (c, Pending)
    case Write(now) =>
      var armed := if c.head.Some? then c.head.value.(deadline := now + c.timeout) else Head(0, now + c.timeout, false);
      (c.(head := Some(armed)), Written)
  }

  /** The simple connection keeps every byte since it last began to wait for a head, and waits
      until the terminator is among them. */
  datatype Ideal = Ideal(timeout: nat, fed: seq<byte>, deadline: nat, isFirst: bool)

  ghost predicate Awaits(i: Ideal) {
    !HasTerminator(i.fed)
  }

  ghost function IdealStep(i: Ideal, e: Event): (Ideal, Outcome) {
    match e
    case Read(now, bytes) =>
      if Awaits(i) && i.deadline <= now then (i, if i.isFirst then TimedOut else EndOfStream)
      else (if Awaits(i) then i.(fed := i.fed + bytes) else i, Delivered(bytes))
    case Quiet(now) =>
      (i, if !(Awaits(i) && i.deadline <= now) then Pending else if i.isFirst then TimedOut else EndOfStream)
    case Write(now) =>
      (if Awaits(i) then i.(deadline := now + i.timeout) else Ideal(i.timeout, [], now + i.timeout, false), Written)
  }

  ghost predicate Refines(c: Conn, i: Ideal) {
    && c.timeout == i.timeout
    && (c.head.Some? <==> Awaits(i))
    && (c.head.Some? ==>
       Tracks(i.fed, c.head.value.matched) && c.head.value.deadline == i.deadline && c.head.value.isFirst == i.isFirst)
  }

  lemma StepRefines(c: Conn, i: Ideal, e: Event)
    requires Sound(c) && Refines(c, i)
    ensures Refines(Step(c, e).0, IdealStep(i, e).0) && Step(c, e).1 == IdealStep(i, e).1
  {
    NothingYet();
    if e.Read? && c.head.Some? {
      ScannedFinds(i.fed, c.head.value.matched, e.bytes);
    }
  }

  function Run(c: Conn, events: seq<Event>): (r: (Conn, seq<Outcome>))
    requires Sound(c)
    ensures Sound(r.0)
  {
    if events == [] then (c, [])
    else
      var (d, outs) := Run(c, events[..|events| - 1]);
      var (d', out) := Step(d, events[|events| - 1]);
      (d', outs + [out])
  }

  ghost function IdealRun(i: Ideal, events: seq<Event>): (Ideal, seq<Outcome>) {
    if events == [] then (i, [])
    else
      var (j, outs) := IdealRun(i, events[..|events| - 1]);
      var (j', out) := IdealStep(j, events[|events| - 1]);
      (j', outs + [out])
  }

  /** Over every sequence of reads, empty polls and writes, the connection that remembers only a
      match count answers exactly as the one that remembers every byte. */
  lemma {:induction false} RunRefines(timeout: nat, now: nat, events: seq<Event>)
    ensures var (c, outs) := Run(Opened(timeout, now), events);
            var (i, ideal) := IdealRun(Ideal(timeout, [], now + timeout, true), events);
            Refines(c, i) && outs == ideal
  {
    if events == [] {
      NothingYet();
    } else {
      var init := events[..|events| - 1];
      RunRefines(timeout, now, init);
      var ideal := IdealRun(Ideal(timeout, [], now + timeout, true), init).0;
      StepRefines(Run(Opened(timeout, now), init).0, ideal, events[|events| - 1]);
    }
  }

  /** What the reader was given. */
  function Given(outs: seq<Outcome>): seq<byte> {
    if outs == [] then []
    else
      var out := outs[|outs| - 1];
      Given(outs[..|outs| - 1]) + if out.Delivered? then out.bytes else []
  }

  /** Every poll from the deadline on is refused and changes nothing. */
  ghost predicate RefusesFrom(c: Conn, deadline: nat, isFirst: bool)
    requires Sound(c)
  {
    var refusal := if isFirst then TimedOut else EndOfStream;
    forall now :: deadline <= now ==>
      Step(c, Quiet(now)) == (c, refusal) && forall bytes :: Step(c, Read(now, bytes)) == (c, refusal)
  }

  /** A connection that began to wait as `c` and has seen `text` of this head since. */
  ghost predicate Waits(c: Conn, d: Conn, text: seq<byte>)
    requires c.head.Some?
  {
    && (d.head.None? <==> HasTerminator(text))
    && (d.head.Some? ==> Tracks(text, d.head.value.matched))
    && (d.head.Some? ==> d.head.value.deadline == c.head.value.deadline && d.head.value.isFirst == c.head.value.isFirst)
  }

  /** Reading never buys time. Until a write, a connection waiting for a head is done waiting exactly
      when the terminator is in what it was given since it began to wait; until then it keeps its
      deadline and refuses every poll, with or without bytes ready, from that moment on. */
  lemma ReadsNeverExtend(c: Conn, fed: seq<byte>, events: seq<Event>)
    requires Sound(c) && c.head.Some? && Tracks(fed, c.head.value.matched) && !HasTerminator(fed)
    requires forall j :: 0 <= j < |events| ==> !events[j].Write?
    ensures var (d, outs) := Run(c, events);
            && (d.head.None? <==> HasTerminator(fed + Given(outs)))
            && (d.head.Some? ==> d.head.value.deadline == c.head.value.deadline)
            && (d.head.Some? ==> RefusesFrom(d, c.head.value.deadline, c.head.value.isFirst))
  {
    ReadsWait(c, fed, events);
  }

  lemma {:induction false} ReadsWait(c: Conn, fed: seq<byte>, events: seq<Event>)
    requires Sound(c) && c.head.Some? && Tracks(fed, c.head.value.matched) && !HasTerminator(fed)
    requires forall j :: 0 <= j < |events| ==> !events[j].Write?
    ensures var (d, outs) := Run(c, events); Waits(c, d, fed + Given(outs))
  {
    if events == [] {
      assert fed + Given([]) == fed;
    } else {
      var init, e := events[..|events| - 1], events[|events| - 1];
      ReadsWait(c, fed, init);
      var (d, outs) := Run(c, init);
      GivenAfter(fed, outs, Step(d, e).1);
      StepWaits(c, d, fed + Given(outs), fed + Given(outs + [Step(d, e).1]), e);
    }
  }

  lemma StepWaits(c: Conn, d: Conn, before: seq<byte>, after: seq<byte>, e: Event)
    requires Sound(d) && c.head.Some? && !e.Write? && Waits(c, d, before)
    requires after == before + Given([Step(d, e).1])
    ensures Waits(c, Step(d, e).0, after)
  {
    OneRead(d, before, e);
  }

  lemma GivenOne(outs: seq<Outcome>, out: Outcome)
    ensures Given(outs + [out]) == Given(outs) + Given([out])
  {
    assert (outs + [out])[..|outs|] == outs && [out][..0] == [];
  }

  lemma OneRead(c: Conn, fed: seq<byte>, e: Event)
    requires Sound(c) && !e.Write? && (c.head.None? <==> HasTerminator(fed))
    requires c.head.Some? ==> Tracks(fed, c.head.value.matched)
    ensures var (d, out) := Step(c, e);
            && (d.head.None? <==> HasTerminator(fed + Given([out])))
            && (d.head.Some? ==> Tracks(fed + Given([out]), d.head.value.matched))
  {
    var (d, out) := Step(c, e);
    assert [out][..0] == [];
    if out.Delivered? {
      assert Given([out]) == e.bytes;
      if c.head.Some? {
        ScannedFinds(fed, c.head.value.matched, e.bytes);
      } else {
        TerminatorGrows(fed, e.bytes);
      }
    } else {
      assert fed + Given([out]) == fed;
    }
  }

  // ---------------------------------------------------------------- heads sent ahead

  /** Writes come only while a head is awaited, so they move its deadline and begin no other. */
  ghost predicate OneHead(c: Conn, events: seq<Event>)
    requires Sound(c)
  {
    forall n :: 0 <= n < |events| && events[n].Write? ==> Run(c, events[..n]).0.head.Some?
  }

  /** Over every stretch for one head, writes included, it is complete exactly when the terminator is in what
      was given since the wait began. */
  lemma {:induction false} OneHeadTracks(c: Conn, fed: seq<byte>, events: seq<Event>)
    requires Sound(c) && c.head.Some? && Tracks(fed, c.head.value.matched) && !HasTerminator(fed)
    requires OneHead(c, events)
    ensures var (d, outs) := Run(c, events);
            && (d.head.None? <==> HasTerminator(fed + Given(outs)))
            && (d.head.Some? ==> Tracks(fed + Given(outs), d.head.value.matched))
  {
    if events == [] {
      assert fed + Given([]) == fed;
    } else {
      var init, e := events[..|events| - 1], events[|events| - 1];
      PrefixOneHead(c, events);
      OneHeadTracks(c, fed, init);
      var (d, outs) := Run(c, init);
      GivenAfter(fed, outs, Step(d, e).1);
      OneHeadStep(d, fed + Given(outs), fed + Given(outs + [Step(d, e).1]), e);
    }
  }

  lemma PrefixOneHead(c: Conn, events: seq<Event>)
    requires Sound(c) && events != [] && OneHead(c, events)
    ensures OneHead(c, events[..|events| - 1])
    ensures events[|events| - 1].Write? ==> Run(c, events[..|events| - 1]).0.head.Some?
  {
    var init := events[..|events| - 1];
    forall n | 0 <= n < |init| && init[n].Write? ensures Run(c, init[..n]).0.head.Some? {
      assert init[..n] == events[..n] && init[n] == events[n];
    }
  }

  lemma GivenAfter(fed: seq<byte>, outs: seq<Outcome>, out: Outcome)
    ensures fed + Given(outs + [out]) == fed + Given(outs) + Given([out])
  {
    GivenOne(outs, out);
  }

  lemma OneHeadStep(c: Conn, before: seq<byte>, after: seq<byte>, e: Event)
    requires Sound(c) && (e.Write? ==> c.head.Some?) && (c.head.None? <==> HasTerminator(before))
    requires c.head.Some? ==> Tracks(before, c.head.value.matched)
    requires after == before + Given([Step(c, e).1])
    ensures Step(c, e).0.head.None? <==> HasTerminator(after)
    ensures Step(c, e).0.head.Some? ==> Tracks(after, Step(c, e).0.head.value.matched)
  {
    if e.Write? {
      assert [Step(c, e).1][..0] == [];
      assert after == before;
    } else {
      OneRead(c, before, e);
    }
  }

  /** Where the first head of a text ends. */
  ghost function HeadEnd(text: seq<byte>): (n: nat)
    requires HasTerminator(text)
    ensures n <= |text| && HasTerminator(text[..n]) && forall m :: 0 <= m < n ==> !HasTerminator(text[..m])
  {
    var init := text[..|text| - 1];
    if HasTerminator(init) then
      assert forall m :: 0 <= m <= |init| ==> init[..m] == text[..m];
      HeadEnd(init)
    else
      assert text[..|text|] == text;
      NoneShorter(text);
      |text|
  }

  lemma NoneShorter(text: seq<byte>)
    requires text != [] && !HasTerminator(text[..|text| - 1])
    ensures forall m :: 0 <= m < |text| ==> !HasTerminator(text[..m])
  {
    forall m | 0 <= m < |text| ensures !HasTerminator(text[..m]) {
      TerminatorGrows(text[..m], text[m..|text| - 1]);
      assert text[..m] + text[m..|text| - 1] == text[..|text| - 1];
    }
  }

  /** A terminator of the joined text starts in its first part. */
  ghost predicate StartsIn(first: seq<byte>, rest: seq<byte>) {
    exists at :: at < |first| && OccursAt(TERMINATOR, first + rest, at)
  }

  lemma TerminatorStarts(first: seq<byte>, rest: seq<byte>)
    ensures HasTerminator(first + rest) <==> StartsIn(first, rest) || HasTerminator(rest)
  {
    var text := first + rest;
    if at :| OccursAt(TERMINATOR, text, at) {
      if at >= |first| {
        assert rest[at - |first|..at - |first| + 4] == text[at..at + 4];
        assert OccursAt(TERMINATOR, rest, at - |first|);
      }
    }
    if at :| OccursAt(TERMINATOR, rest, at) {
      assert text[|first| + at..|first| + at + 4] == rest[at..at + 4];
      assert OccursAt(TERMINATOR, text, |first| + at);
    }
  }

  /** A connection that begins to wait for a head. */
  predicate Begins(c: Conn) {
    c.head.Some? && c.head.value.matched == 0
  }

  /** Bytes given after a head's end and before the write that begins the next wait are not looked at. For
      every connection and every stretch of polls before and after that write: the next head counts as
      complete exactly when its terminator is in what came after the write; so it never completes early,
      and the connection still waits for a head the peer has sent in full exactly when the terminator
      starts in the bytes given before the write and none lies in those after it. */
  lemma NextHeadMissedExactly(c: Conn, events: seq<Event>, now: nat, more: seq<Event>)
    requires Sound(c) && Begins(c) && OneHead(c, events) && Run(c, events).0.head.None?
    requires OneHead(Step(Run(c, events).0, Write(now)).0, more)
    ensures HasTerminator(Given(Run(c, events).1))
    ensures var given := Given(Run(c, events).1);
            var ahead := given[HeadEnd(given)..];
            var (d, outs) := Run(Step(Run(c, events).0, Write(now)).0, more);
            && (d.head.None? <==> HasTerminator(Given(outs)))
            && (d.head.None? ==> HasTerminator(ahead + Given(outs)))
            && (d.head.Some? && HasTerminator(ahead + Given(outs)) <==>
                StartsIn(ahead, Given(outs)) && !HasTerminator(Given(outs)))
  {
    NothingYet();
    OneHeadTracks(c, [], events);
    var given := Given(Run(c, events).1);
    assert [] + given == given;
    var ahead := given[HeadEnd(given)..];
    var armed := Step(Run(c, events).0, Write(now)).0;
    OneHeadTracks(armed, [], more);
    var later := Given(Run(armed, more).1);
    assert [] + later == later;
    TerminatorStarts(ahead, later);
  }

  /** Two heads in one read, an answer, and silence: the connection is closed although the second head is
      there in full. */
  lemma HeadSentAheadIsMissed(timeout: nat)
    requires timeout > 0
    ensures var c := Step(Opened(timeout, 0), Read(0, [13, 10, 13, 10, 13, 10, 13, 10])).0;
            Step(Step(c, Write(0)).0, Quiet(timeout)).1 == EndOfStream
  {
    TwoHeads();
  }

  lemma TwoHeads()
    ensures Scanned(0, [13, 10, 13, 10, 13, 10, 13, 10]).None?
  {
    var two: seq<byte> := [13, 10, 13, 10, 13, 10, 13, 10];
    NothingYet();
    assert two[0..4] == TERMINATOR && [] + two == two;
    assert OccursAt(TERMINATOR, two, 0);
    ScannedFinds([], 0, two);
  }

  // ---------------------------------------------------------------- the source's objects

  class HeadDeadline {
    var matched: nat
    var deadline: nat
    const isFirst: bool

    constructor (timeout: nat, now: nat, isFirst: bool)
      ensures matched == 0 && deadline == now + timeout && this.isFirst == isFirst
    {
      matched, deadline, this.isFirst := 0, now + timeout, isFirst;
    }

    /** Advances the match across reads that may split it, and stops at completion. */
    method IsComplete(bytes: seq<byte>) returns (complete: bool)
      requires matched < 4
      modifies `matched
      ensures complete == Scanned(old(matched), bytes).None?
      ensures !complete ==> matched < 4 && Some(matched) == Scanned(old(matched), bytes)
    {
      var i := 0;
      while i < |bytes|
        invariant 0 <= i <= |bytes| && matched < 4
        invariant Scanned(old(matched), bytes) == Scanned(matched, bytes[i..])
      {
        assert bytes[i..][1..] == bytes[i + 1..];
        assert TERMINATOR[matched] == Expected(matched);
        if TERMINATOR[matched] == bytes[i] {
          matched := matched + 1;
          if matched == |TERMINATOR| {
            return true;
          }
        } else {
          matched := if bytes[i] == TERMINATOR[0] then 1 else 0;
        }
        i := i + 1;
      }
      complete := false;
    }
  }

  class BoundedStream {
    const timeout: nat
    var head: HeadDeadline?

    ghost predicate Valid()
      reads this, head
    {
      head != null ==> head.matched < 4
    }

    ghost function State(): (c: Conn)
      requires Valid()
      reads this, head
      ensures Sound(c)
    {
      Conn(timeout, if head == null then None else Some(Head(head.matched, head.deadline, head.isFirst)))
    }

    constructor (timeout: nat, now: nat)
      ensures Valid() && fresh(head) && State() == Opened(timeout, now)
    {
      this.timeout := timeout;
      head := new HeadDeadline(timeout, now, true);
    }

    /** A poll for input, with what the socket has ready. */
    method PollRead(now: nat, ready: Option<seq<byte>>) returns (out: Outcome)
      requires Valid()
      modifies this, head
      ensures Valid() && (head == null || head == old(head))
      ensures (State(), out) == Step(old(State()), if ready.Some? then Read(now, ready.value) else Quiet(now))
      ensures out == if old(head != null && head.deadline <= now)
                     then if old(head != null && head.isFirst) then TimedOut else EndOfStream
                     else if ready.Some? then Delivered(ready.value) else Pending
    {
      if head != null && head.deadline <= now {
        return Refusal(head.isFirst);
      }
      if ready.None? {
        return Pending;
      }
      if head != null {
        var complete := head.IsComplete(ready.value);
        if complete {
          head := null;
        }
      }
      out := Delivered(ready.value);
    }

    /** Writing a response moves the deadline, or arms it for the next head; a partial match is kept. */
    method PollWrite(now: nat) returns (out: Outcome)
      requires Valid()
      modifies this, head
      ensures Valid() && (head == old(head) || fresh(head))
      ensures (State(), out) == Step(old(State()), Write(now))
    {
      if head != null {
        head.deadline := now + timeout;
      } else {
        head := new HeadDeadline(timeout, now, false);
      }
      out := Written;
    }
  }
}
