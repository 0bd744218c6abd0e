/** The hub as the source has it, an object whose methods are the steps of the protocol:
    crates/flanforge-logging/src/hub.rs. */
module Logging {
  import opened LogHubs

  class LogHub {
    var backlog: seq<Line>
    var nextSeq: nat
    /** What the broadcast channel has carried. */
    var sent: seq<Line>
    ghost var pending: multiset<Line>
    ghost var log: seq<Line>

    /** The hub with one reader, as the state machine has it. */
    ghost function State(reader: Reader): Sys
      reads this
    {
      Sys(backlog, nextSeq, pending, sent, reader, log)
    }

    ghost predicate Valid()
      reads this
    {
      Sound(State(Absent))
    }

    constructor ()
      ensures Valid() && State(Absent) == Init()
    {
      backlog, nextSeq, sent, pending, log := [], 0, [], multiset{}, [];
    }

    /** The locked half of a push: the line is numbered by its place in the log and filed. */
    method Append(text: string) returns (line: Line)
      requires Valid()
      modifies this
      ensures Valid() && line == Line(|old(log)|, text) && line in pending
      ensures State(Absent) == Next(old(State(Absent)), Event.Append(text))
    {
      NextSound(State(Absent), Event.Append(text));
      line := Line(nextSeq, text);
      nextSeq := nextSeq + 1;
      if |backlog| == BACKLOG_LINES {
        backlog := backlog[1..];
      }
      backlog := backlog + [line];
      pending := pending + multiset{line};
      log := log + [line];
    }

    /** The unlocked half, which another thread's may overtake. */
    method Send(line: Line)
      requires Valid() && line in pending
      modifies this
      ensures Valid() && State(Absent) == Next(old(State(Absent)), Event.Send(line))
    {
      NextSound(State(Absent), Event.Send(line));
      pending := pending - multiset{line};
      sent := sent + [line];
    }

    /** A push no other comes between. */
    method Push(text: string)
      requires Valid()
      modifies this
      ensures Valid() && log == old(log) + [Line(|old(log)|, text)]
      ensures sent == old(sent) + [Line(|old(log)|, text)] && pending == old(pending)
    {
      var line := Append(text);
      Send(line);
    }

    /** The tail asked for, up to 1000 lines of the log's end, and the channel position the receiver
        reads from, which is fixed first. */
    method Subscribe(backlogLines: nat) returns (tail: seq<Line>, from: nat)
      requires Valid()
      ensures tail == Last(log, if backlogLines < 1000 then backlogLines else 1000)
      ensures Reading(from, tail) == Next(Next(State(Absent), Event.Subscribe), Snapshot(backlogLines)).reader
    {
      from := |sent|;
      var skip := if |backlog| <= backlogLines then 0 else |backlog| - backlogLines;
      tail := backlog[skip..];
    }
  }
}
