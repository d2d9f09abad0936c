/** Which turns end the worker of the remote client, and with what error; told on the turns alone. */
module Endings {
  import opened Wrappers
  import opened Remote

  /** Whether a turn after others ends the loop. */
  predicate EndsLoop(turns: seq<Turn>, t: Turn) {
    match t.input
    case NoMoreCommands => true
    case Taken(Ask(id, _)) => t.write.Some? && !Outstanding(turns, id)
    case Taken(Tell(_)) => false
    case Taken(Shutdown(_)) => true
    case Received(Parsed(Response(_, _))) => false
    case Received(Parsed(Error(_, _))) => false
    case Received(Parsed(Notification(_, known))) => known && !t.listening
    case Received(Parsed(Request(_, _, known))) => if known then !t.listening else t.write.Some?
    case Received(Skipped) => false
    case Received(Garbled(_)) => true
    case Received(Close(_)) => true
    case Received(Broken(_)) => true
    case Received(Ended) => true
  }

  /** The kind of the error that a turn that ends the loop leaves behind; none if it ends in order. */
  function ExitKind(t: Turn): Option<ErrorKind> {
    match t.input
    case Taken(Ask(_, _)) => Some(BrokenPipe)
    case Received(Parsed(Request(_, _, false))) => Some(BrokenPipe)
    case Received(Garbled(_)) => Some(InvalidData)
    case Received(Close(_)) => Some(ConnectionAborted)
    case Received(Broken(_)) => Some(InvalidData)
    case Received(Ended) => Some(UnexpectedEof)
    case _ => None
  }

  predicate EndsWith(s: string, end: string) {
    |end| <= |s| && s[|s| - |end|..] == end
  }

  /** What the message of that error ends with: the reason that the turn brings. */
  function Reason(t: Turn): string {
    match t.input
    case Taken(_) => if t.write.Some? then t.write.value.message else ""
    case Received(Parsed(_)) => if t.write.Some? then t.write.value.message else ""
    case Received(Garbled(problem)) => problem
    case Received(Close(reason)) => if reason.Some? && reason.value != "" then reason.value else "connection closed"
    case Received(Broken(problem)) => problem
    case _ => ""
  }

  /** What a turn that ends the loop leaves behind. */
  ghost predicate Leaves(exit: Option<IoError>, t: Turn) {
    && (exit.Some? <==> ExitKind(t).Some?)
    && (exit.Some? ==> exit.value.kind == ExitKind(t).value && EndsWith(exit.value.message, Reason(t)))
  }

  /** A state ends up as the turn calls for. */
  ghost predicate EndsUp(turns: seq<Turn>, t: Turn, w: State) {
    (!w.running <==> EndsLoop(turns, t)) && (!w.running ==> Leaves(w.exit, t))
  }

  ghost predicate Ongoing(turns: seq<Turn>, s: State) {
    s.running && s.exit.None? && forall id :: id in s.pending <==> Outstanding(turns, id)
  }

  lemma CommandEnds(turns: seq<Turn>, t: Turn, s: State)
    requires Ongoing(turns, s) && t.input.Taken?
    ensures EndsUp(turns, t, Obey(s, |turns|, t.input.command, t))
  {
    if t.input.command.Ask? {
      assert t.input.command.id in s.pending <==> Outstanding(turns, t.input.command.id);
    }
  }

  lemma MessageEnds(turns: seq<Turn>, t: Turn, s: State)
    requires Ongoing(turns, s) && t.input.Received? && t.input.frame.Parsed?
    ensures EndsUp(turns, t, Hear(s, t.input.frame.message, t))
  {
  }

  lemma FrameEnds(turns: seq<Turn>, t: Turn, s: State)
    requires Ongoing(turns, s) && t.input.Received? && !t.input.frame.Parsed?
    ensures EndsUp(turns, t, Step(s, |turns|, t))
  {
  }

  lemma StepEnds(turns: seq<Turn>, t: Turn, s: State)
    requires Ongoing(turns, s)
    ensures EndsUp(turns, t, Step(s, |turns|, t))
  {
    match t.input
    case NoMoreCommands =>
    case Taken(c) => CommandEnds(turns, t, s);
    case Received(Parsed(m)) => MessageEnds(turns, t, s);
    case Received(f) => FrameEnds(turns, t, s);
  }

  lemma RunningTable(turns: seq<Turn>)
    requires IsRun(turns) && Run(turns).running
    ensures Ongoing(turns, Run(turns))
  {
    RunKeeps(turns);
    EventsFollowTheWire(turns);
  }

  lemma LastEnds(turns: seq<Turn>)
    requires IsRun(turns) && turns != []
    ensures EndsUp(turns[..|turns| - 1], turns[|turns| - 1], Run(turns))
  {
    var init := turns[..|turns| - 1];
    RunningTable(init);
    StepEnds(init, turns[|turns| - 1], Run(init));
  }

  /** After a run the worker has stopped exactly if its last turn is one that ends the loop. */
  lemma StopsIff(turns: seq<Turn>)
    requires IsRun(turns)
    ensures !Run(turns).running <==> turns != [] && EndsLoop(turns[..|turns| - 1], turns[|turns| - 1])
  {
    if turns != [] {
      LastEnds(turns);
    }
  }

  /** And then it leaves the error that this turn calls for, with the reason that it brings. */
  lemma ExitIs(turns: seq<Turn>)
    requires IsRun(turns) && !Run(turns).running
    ensures turns != []
    ensures Run(turns).exit.Some? <==> ExitKind(turns[|turns| - 1]).Some?
    ensures Run(turns).exit.Some? ==>
              && Run(turns).exit.value.kind == ExitKind(turns[|turns| - 1]).value
              && EndsWith(Run(turns).exit.value.message, Reason(turns[|turns| - 1]))
  {
    LastEnds(turns);
  }

  /** No run goes on behind a turn that ends the loop. */
  lemma {:induction false} NothingBehindTheEnd(turns: seq<Turn>, k: nat)
    requires IsRun(turns) && k < |turns| && EndsLoop(turns[..k], turns[k])
    ensures k == |turns| - 1
  {
    if k < |turns| - 1 {
      var init := turns[..|turns| - 1];
      assert init[..k] == turns[..k];
      NothingBehindTheEnd(init, k);
      StopsIff(init);
    }
  }
}
