/** The log tail and its live stream: `LogHub`, crates/flanforge-logging/src/hub.rs, and the reader in
    crates/flanforge-webui-routes/src/sse.rs. A push appends under the lock and sends after releasing
    it, so sends may overtake one another; a reader subscribes and then takes its snapshot. */
module LogHubs {
  import opened Base

  const BACKLOG_LINES := 1000

  datatype Line = Line(seqNo: nat, text: string)

  function Last(lines: seq<Line>, n: nat): seq<Line> {
    if |lines| <= n then lines else lines[|lines| - n..]
  }

  /** The bounded deque after one push. */
  function Appended(backlog: seq<Line>, l: Line): seq<Line> {
    (if |backlog| == BACKLOG_LINES then backlog[1..] else backlog) + [l]
  }

  /** The first sequence number taken from the live stream. */
  function NextLive(tail: seq<Line>): nat {
    if tail == [] then 0 else tail[|tail| - 1].seqNo + 1
  }

  /** The live lines kept. */
  function Live(lines: seq<Line>, from: nat): seq<Line> {
    if lines == [] then []
    else
      var l := lines[|lines| - 1];
      Live(lines[..|lines| - 1], from) + if l.seqNo >= from then [l] else []
  }

  /** The lines logged so far, numbered from zero. */
  ghost predicate Numbered(log: seq<Line>) {
    forall i :: 0 <= i < |log| ==> log[i].seqNo == i
  }

  lemma LastAppended(log: seq<Line>, l: Line)
    ensures Appended(Last(log, BACKLOG_LINES), l) == Last(log + [l], BACKLOG_LINES)
  {
  }

  // ---------------------------------------------------------------- every interleaving

  datatype Reader = Absent | Subscribed(from: nat) | Reading(from: nat, tail: seq<Line>)

  /** The hub, the lines appended whose send is still to come, and one reader. */
  datatype Sys = Sys(
    backlog: seq<Line>,
    nextSeq: nat,
    pending: multiset<Line>,
    sent: seq<Line>,
    reader: Reader,
    log: seq<Line>)

  datatype Event = Append(text: string) | Send(line: Line) | Subscribe | Snapshot(lines: nat)

  ghost function Init(): Sys {
    Sys([], 0, multiset{}, [], Absent, [])
  }

  ghost function Next(s: Sys, e: Event): Sys {
    match e
    case Append(text) =>
      var l := Line(s.nextSeq, text);
      s.(backlog := Appended(s.backlog, l), nextSeq := s.nextSeq + 1, pending := s.pending + multiset{l},
          log := s.log + [l])
    case Send(l) =>
      if l in s.pending then s.(pending := s.pending - multiset{l}, sent := s.sent + [l]) else s
    case Subscribe => if s.reader.Absent? then s.(reader := Subscribed(|s.sent|)) else s
    case Snapshot(n) => if s.reader.Subscribed? then s.(reader := Reading(s.reader.from, Last(s.backlog, n))) else s
  }

  ghost function Run(s: Sys, events: seq<Event>): Sys {
    if events == [] then s else Next(Run(s, events[..|events| - 1]), events[|events| - 1])
  }

  /** The hub's own state, and that every appended line is pending or was sent, once. */
  ghost predicate Sound(s: Sys) {
    && Numbered(s.log) && s.nextSeq == |s.log| && s.backlog == Last(s.log, BACKLOG_LINES)
    && multiset(s.sent) + s.pending == multiset(s.log)
    && (s.reader.Absent? || s.reader.from <= |s.sent|)
  }

  /** The snapshot was taken after `taken` lines: the tail ends there, and everything sent before the
      reader subscribed is older. */
  ghost predicate TakenAt(s: Sys, taken: nat, n: nat) {
    && s.reader.Reading? && taken <= |s.log| && s.reader.from <= |s.sent|
    && s.reader.tail == Last(Last(s.log[..taken], BACKLOG_LINES), n)
    && forall i :: 0 <= i < s.reader.from ==> s.sent[i].seqNo < taken
  }

  lemma NextSound(s: Sys, e: Event)
    requires Sound(s)
    ensures Sound(Next(s, e))
  {
    match e
    case Append(text) => LastAppended(s.log, Line(s.nextSeq, text));
    case Send(l) =>
      if l in s.pending {
        var t := Next(s, e);
        assert multiset(t.sent) == multiset(s.sent) + multiset{l};
        assert multiset(t.sent) + t.pending == multiset(s.sent) + s.pending;
      }
    case Subscribe =>
    case Snapshot(n) =>
  }

  lemma {:induction false} RunSound(events: seq<Event>)
    ensures Sound(Run(Init(), events))
  {
    if events != [] {
      RunSound(events[..|events| - 1]);
      NextSound(Run(Init(), events[..|events| - 1]), events[|events| - 1]);
    }
  }

  /** A line's number is its place in the log. */
  lemma Placed(s: Sys, l: Line)
    requires Sound(s) && (l in s.sent || l in s.pending)
    ensures l.seqNo < |s.log| && s.log[l.seqNo] == l
  {
    assert l in multiset(s.sent) + s.pending;
    assert l in s.log;
  }

  lemma NextTaken(s: Sys, e: Event, taken: nat, n: nat)
    requires Sound(s) && TakenAt(s, taken, n)
    ensures TakenAt(Next(s, e), taken, n)
  {
    assert Next(s, e).log[..taken] == s.log[..taken];
  }

  lemma SnapshotTaken(s: Sys, n: nat)
    requires Sound(s) && s.reader.Subscribed?
    ensures TakenAt(Next(s, Snapshot(n)), |s.log|, n)
  {
    assert s.log[..|s.log|] == s.log;
    forall i | 0 <= i < s.reader.from ensures s.sent[i].seqNo < |s.log| {
      Placed(s, s.sent[i]);
    }
  }

  /** In every run a reader that has its tail took it at some point of the log. */
  lemma {:induction false} RunTaken(events: seq<Event>) returns (taken: nat, n: nat)
    requires Run(Init(), events).reader.Reading?
    ensures TakenAt(Run(Init(), events), taken, n)
  {
    var before := events[..|events| - 1];
    var s := Run(Init(), before);
    var e := events[|events| - 1];
    RunSound(before);
    if s.reader.Reading? {
      taken, n := RunTaken(before);
      NextTaken(s, e, taken, n);
    } else {
      assert e.Snapshot?;
      taken, n := |s.log|, e.lines;
      SnapshotTaken(s, n);
    }
  }

  // ---------------------------------------------------------------- what the reader sees

  ghost function Seen(s: Sys): seq<Line>
    requires s.reader.Reading? && s.reader.from <= |s.sent|
  {
    s.reader.tail + Live(s.sent[s.reader.from..], NextLive(s.reader.tail))
  }

  lemma {:induction false} LiveCounts(lines: seq<Line>, from: nat, l: Line)
    ensures multiset(Live(lines, from))[l] == if l.seqNo >= from then multiset(lines)[l] else 0
  {
    if lines != [] {
      LiveCounts(lines[..|lines| - 1], from, l);
      assert lines == lines[..|lines| - 1] + [lines[|lines| - 1]];
    }
  }

  /** Numbered lines occur once each. */
  lemma {:induction false} NumberedCounts(log: seq<Line>, from: nat, l: Line)
    requires from <= |log| && Numbered(log)
    ensures multiset(log[from..])[l] == if from <= l.seqNo < |log| && log[l.seqNo] == l then 1 else 0
    decreases |log| - from
  {
    if from < |log| {
      NumberedCounts(log, from + 1, l);
      assert log[from..] == [log[from]] + log[from + 1..];
    }
  }

  lemma BeforeCounts(lines: seq<Line>, taken: nat, l: Line)
    requires l.seqNo >= taken && forall i :: 0 <= i < |lines| ==> lines[i].seqNo < taken
    ensures multiset(lines)[l] == 0
  {
    assert l !in lines;
  }

  /** The tail is a stretch of the log, ending where the snapshot was taken. */
  lemma TailIsContiguous(s: Sys, taken: nat, n: nat)
    requires Sound(s) && TakenAt(s, taken, n)
    ensures |s.reader.tail| <= taken && s.reader.tail == s.log[taken - |s.reader.tail|..taken]
    ensures forall i :: 0 <= i < |s.reader.tail| ==> s.reader.tail[i].seqNo == taken - |s.reader.tail| + i
  {
    var tail := s.reader.tail;
    assert tail == s.log[..taken][taken - |tail|..];
    assert tail == s.log[taken - |tail|..taken];
  }

  /** Whatever the order of appends, sends, subscription and snapshot, a line logged after the snapshot
      is seen exactly once from the moment it is sent, and not before; a line of the tail is seen
      exactly once although the channel may carry it too; and a reader whose tail is not empty sees
      nothing older than it. A reader with an empty tail sees older lines at most once. */
  lemma EveryLineOnce(s: Sys, taken: nat, n: nat, l: Line)
    requires Sound(s) && TakenAt(s, taken, n) && l in s.log
    ensures l.seqNo >= taken ==> multiset(Seen(s))[l] == if l in s.pending then 0 else 1
    ensures taken - |s.reader.tail| <= l.seqNo < taken ==> multiset(Seen(s))[l] == 1
    ensures l.seqNo < taken - |s.reader.tail| ==> multiset(Seen(s))[l] <= 1 && (s.reader.tail != [] ==> l !in Seen(s))
  {
    TailIsContiguous(s, taken, n);
    TailCounts(s, taken, l);
    StreamCounts(s, taken, n, l);
    SeenCounts(s, l);
  }

  /** What the tail and the stream contribute. */
  lemma SeenCounts(s: Sys, l: Line)
    requires s.reader.Reading? && s.reader.from <= |s.sent|
    ensures multiset(Seen(s))[l] == multiset(s.reader.tail)[l] +
              if l.seqNo >= NextLive(s.reader.tail) then multiset(s.sent[s.reader.from..])[l] else 0
  {
    LiveCounts(s.sent[s.reader.from..], NextLive(s.reader.tail), l);
  }

  /** The stream carries a line at most once, and one logged after the snapshot as soon as it is sent. */
  lemma StreamCounts(s: Sys, taken: nat, n: nat, l: Line)
    requires Sound(s) && TakenAt(s, taken, n) && l in s.log
    ensures multiset(s.sent[s.reader.from..])[l] <= 1
    ensures l.seqNo >= taken ==> multiset(s.sent[s.reader.from..])[l] == if l in s.pending then 0 else 1
  {
    var from := s.reader.from;
    SentOnce(s, l);
    assert s.sent == s.sent[..from] + s.sent[from..];
    assert multiset(s.sent)[l] == multiset(s.sent[..from])[l] + multiset(s.sent[from..])[l];
    if l.seqNo >= taken {
      BeforeCounts(s.sent[..from], taken, l);
    }
  }

  /** A logged line is pending or was sent, never both and never twice. */
  lemma SentOnce(s: Sys, l: Line)
    requires Sound(s) && l in s.log
    ensures multiset(s.sent)[l] + s.pending[l] == 1
  {
    NumberedCounts(s.log, 0, l);
    assert s.log[0..] == s.log;
    assert (multiset(s.sent) + s.pending)[l] == multiset(s.log)[l];
  }

  lemma TailCounts(s: Sys, taken: nat, l: Line)
    requires Sound(s) && s.reader.Reading? && taken <= |s.log| && l in s.log
    requires |s.reader.tail| <= taken && s.reader.tail == s.log[taken - |s.reader.tail|..taken]
    ensures multiset(s.reader.tail)[l] == if taken - |s.reader.tail| <= l.seqNo < taken then 1 else 0
  {
    var log := s.log[..taken];
    assert s.reader.tail == log[taken - |s.reader.tail|..];
    NumberedCounts(log, taken - |s.reader.tail|, l);
  }

  /** Every sent line from this number on is seen exactly once. */
  ghost predicate SeenOnceFrom(s: Sys, first: int)
    requires s.reader.Reading? && s.reader.from <= |s.sent|
  {
    forall l :: l in s.log && l.seqNo >= first && l !in s.pending ==> multiset(Seen(s))[l] == 1
  }

  /** The same over all runs: the reader's snapshot point splits the log, and once nothing is left to
      send, the reader has every line from its tail's first one on, once. */
  lemma RunsLoseNothing(events: seq<Event>) returns (taken: nat)
    requires Run(Init(), events).reader.Reading?
    ensures var s := Run(Init(), events);
            && taken <= |s.log| && |s.reader.tail| <= taken && s.reader.from <= |s.sent|
            && s.reader.tail == s.log[taken - |s.reader.tail|..taken]
            && SeenOnceFrom(s, taken - |s.reader.tail|)
  {
    var n;
    taken, n := RunTaken(events);
    RunSound(events);
    var s := Run(Init(), events);
    TailIsContiguous(s, taken, n);
    forall l | l in s.log && l.seqNo >= taken - |s.reader.tail| && l !in s.pending ensures multiset(Seen(s))[l] == 1 {
      EveryLineOnce(s, taken, n, l);
    }
  }

  lemma CountsDistinct(lines: seq<Line>)
    requires forall l :: multiset(lines)[l] <= 1
    ensures Distinct(lines)
  {
    forall i, j | 0 <= i < j < |lines| ensures lines[i] != lines[j] {
      assert lines == lines[..j] + lines[j..];
      assert lines[i] in lines[..j] && lines[j] in lines[j..];
      assert multiset(lines)[lines[i]] == multiset(lines[..j])[lines[i]] + multiset(lines[j..])[lines[i]];
    }
  }

  /** In every run the reader sees no line twice, whatever the order of sends. */
  lemma NothingTwice(events: seq<Event>)
    requires Run(Init(), events).reader.Reading?
    ensures var s := Run(Init(), events); s.reader.from <= |s.sent| && Distinct(Seen(s))
  {
    var taken, n := RunTaken(events);
    RunSound(events);
    var s := Run(Init(), events);
    forall l ensures multiset(Seen(s))[l] <= 1 {
      if l in s.log {
        EveryLineOnce(s, taken, n, l);
      } else {
        OnlyLogged(s, taken, n, l);
      }
    }
    CountsDistinct(Seen(s));
  }

  lemma OnlyLogged(s: Sys, taken: nat, n: nat, l: Line)
    requires Sound(s) && TakenAt(s, taken, n) && l !in s.log
    ensures multiset(Seen(s))[l] == 0
  {
    TailIsContiguous(s, taken, n);
    assert l !in s.reader.tail;
    assert l !in s.sent by {
      if l in s.sent {
        Placed(s, l);
      }
    }
    assert l !in s.sent[s.reader.from..];
    LiveCounts(s.sent[s.reader.from..], NextLive(s.reader.tail), l);
  }
}
