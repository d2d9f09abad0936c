/**
 * The worker of the remote client: commands from callers and frames from the server arrive in any
 * interleaving, requests wait in a table for their answers, and what still waits is failed on exit.
 */
module Remote {
  import opened Wrappers
  import Protocol

  type RequestId = Protocol.RequestId

  datatype ErrorKind = InvalidInput | BrokenPipe | InvalidData | ConnectionAborted | UnexpectedEof | TimedOut | Other

  datatype IoError = IoError(kind: ErrorKind, message: string)

  /** A JSON-RPC message. `known` says whether it converts to a message of this protocol. */
  datatype Message =
    | Response(id: RequestId, result: string)
    | Error(id: RequestId, error: string)
    | Notification(name: string, known: bool)
    | Request(id: RequestId, name: string, known: bool)

  datatype Frame = Parsed(message: Message) | Garbled(problem: string) | Close(reason: Option<string>)
    | Skipped | Broken(problem: string) | Ended

  datatype Command = Ask(id: RequestId, name: string) | Tell(message: Message) | Shutdown(failure: Option<IoError>)

  datatype Input = Taken(command: Command) | NoMoreCommands | Received(frame: Frame)

  /**
   * One turn of the worker loop, with what its surroundings do in it: whether the event consumer
   * still listens, and how the write of this turn fails, if it does.
   */
  datatype Turn = Turn(input: Input, listening: bool, write: Option<IoError>)

  datatype Event = FromNotification(name: string) | FromRequest(id: RequestId, name: string) | Disconnected(message: string)

  /** What a caller is told about its command. */
  datatype Outcome = Finished | Answered(result: string) | Refused(error: string) | IoFailed(failure: IoError)

  /** The answer to the command taken in a given turn. */
  datatype Completion = Completion(turn: nat, outcome: Outcome)

  /** An error written to the server in answer to a request of its. */
  datatype Rejection = Rejection(id: RequestId, code: int)

  /** Method not found, section 5.1 of the JSON-RPC 2.0 specification. */
  const METHOD_NOT_FOUND := -32601

  function Unsupported(id: RequestId): Rejection {
    Rejection(id, METHOD_NOT_FOUND)
  }

  datatype State = State(
    pending: map<RequestId, nat>, done: seq<Completion>, events: seq<Event>,
    rejected: seq<Rejection>, exit: Option<IoError>, running: bool)

  const START := State(map[], [], [], [], None, true)

  const DUPLICATE := IoError(InvalidInput, "duplicate remote app-server request id")
  const WORKER_CLOSED := IoError(BrokenPipe, "remote app-server worker channel is closed")

  function FromWrite(write: Option<IoError>): Outcome {
    if write.Some? then IoFailed(write.value) else Finished
  }

  function WriteProblem(error: IoError): IoError {
    IoError(BrokenPipe, "write failed: " + error.message)
  }

  function CloseReason(reason: Option<string>): string {
    if reason.Some? && reason.value != "" then reason.value else "connection closed"
  }

  // ----- one turn, as a function of the state

  function Done(s: State, k: nat, o: Outcome): State {
    s.(done := s.done + [Completion(k, o)])
  }

  function Leave(s: State, problem: IoError, listening: bool): State {
    s.(events := if listening then s.events + [Disconnected(problem.message)] else s.events,
       exit := Some(problem), running := false)
  }

  function Obey(s: State, k: nat, c: Command, t: Turn): State {
    match c
    case Ask(id, _) =>
      if id in s.pending then Done(s, k, IoFailed(DUPLICATE))
      else if t.write.Some? then Leave(Done(s, k, IoFailed(t.write.value)), WriteProblem(t.write.value), t.listening)
      else s.(pending := s.pending[id := k])
    case Tell(_) => Done(s, k, FromWrite(t.write))
    case Shutdown(failure) => Done(s, k, FromWrite(failure)).(running := false)
  }

  function Settle(s: State, id: RequestId, o: Outcome): State {
    if id in s.pending then Done(s, s.pending[id], o).(pending := s.pending - {id}) else s
  }

  function Deliver(s: State, e: Event, listening: bool): State {
    if listening then s.(events := s.events + [e]) else s.(running := false)
  }

  function Hear(s: State, m: Message, t: Turn): State {
    match m
    case Response(id, result) => Settle(s, id, Answered(result))
    case Error(id, error) => Settle(s, id, Refused(error))
    case Notification(name, known) => if known then Deliver(s, FromNotification(name), t.listening) else s
    case Request(id, name, known) =>
      if known then Deliver(s, FromRequest(id, name), t.listening)
      else if t.write.Some? then Leave(s, WriteProblem(t.write.value), t.listening)
      else s.(rejected := s.rejected + [Unsupported(id)])
  }

  function Problem(f: Frame): Option<IoError> {
    match f
    case Parsed(_) => None
    case Garbled(problem) => Some(IoError(InvalidData, "sent invalid JSON-RPC: " + problem))
    case Close(reason) => Some(IoError(ConnectionAborted, "disconnected: " + CloseReason(reason)))
    case Skipped => None
    case Broken(problem) => Some(IoError(InvalidData, "transport failed: " + problem))
    case Ended => Some(IoError(UnexpectedEof, "closed the connection"))
  }

  function Step(s: State, k: nat, t: Turn): State {
    match t.input
    case NoMoreCommands => s.(running := false)
    case Taken(c) => Obey(s, k, c, t)
    case Received(Parsed(m)) => Hear(s, m, t)
    case Received(f) => if Problem(f).Some? then Leave(s, Problem(f).value, t.listening) else s
  }

  function Run(turns: seq<Turn>): State {
    if turns == [] then START else Step(Run(turns[..|turns| - 1]), |turns| - 1, turns[|turns| - 1])
  }

  /** The turns of a worker that stops at the first turn that ends its loop. */
  predicate IsRun(turns: seq<Turn>) {
    turns != [] ==> IsRun(turns[..|turns| - 1]) && Run(turns[..|turns| - 1]).running
  }

  lemma Snoc(turns: seq<Turn>)
    requires turns != []
    ensures turns == turns[..|turns| - 1] + [turns[|turns| - 1]]
  {
  }

  // ----- what each command is told, one command at a time

  predicate Asks(t: Turn, id: RequestId) {
    t.input.Taken? && t.input.command.Ask? && t.input.command.id == id
  }

  /** The answer to an id that a turn brings, if it brings one. */
  function ReplyIn(t: Turn, id: RequestId): Option<Outcome> {
    match t.input
    case Received(Parsed(Response(i, result))) => if i == id then Some(Answered(result)) else None
    case Received(Parsed(Error(i, error))) => if i == id then Some(Refused(error)) else None
    case _ => None
  }

  function FirstReply(turns: seq<Turn>, id: RequestId): Option<Outcome> {
    if turns == [] then None
    else if ReplyIn(turns[0], id).Some? then ReplyIn(turns[0], id)
    else FirstReply(turns[1..], id)
  }

  /** The last turn that concerns an id asks for it. */
  predicate Outstanding(turns: seq<Turn>, id: RequestId) {
    turns != [] &&
    var t := turns[|turns| - 1];
    Asks(t, id) || (ReplyIn(t, id).None? && Outstanding(turns[..|turns| - 1], id))
  }

  /** What the command taken in turn `k` has been told by the end of the turns; nothing while it waits. */
  function Told(turns: seq<Turn>, k: nat): Option<Outcome>
    requires k < |turns| && turns[k].input.Taken?
  {
    match turns[k].input.command
    case Ask(id, _) =>
      if Outstanding(turns[..k], id) then Some(IoFailed(IoError(InvalidInput, "duplicate remote app-server request id")))
      else if turns[k].write.Some? then Some(IoFailed(turns[k].write.value))
      else FirstReply(turns[k + 1..], id)
    case Tell(_) => Some(if turns[k].write.Some? then IoFailed(turns[k].write.value) else Finished)
    case Shutdown(failure) => Some(if failure.Some? then IoFailed(failure.value) else Finished)
  }

  predicate IsTold(turns: seq<Turn>, k: nat, o: Outcome) {
    k < |turns| && turns[k].input.Taken? && Told(turns, k) == Some(o)
  }

  predicate Waits(turns: seq<Turn>, k: nat, id: RequestId) {
    k < |turns| && Asks(turns[k], id) && Told(turns, k) == None
  }

  // ----- the worker keeps to it

  /** Every answer owed has been given once, and no other. */
  ghost predicate Accounted(turns: seq<Turn>, done: seq<Completion>) {
    forall c: Completion :: multiset(done)[c] == if IsTold(turns, c.turn, c.outcome) then 1 else 0
  }

  /** The table holds exactly the requests that still wait, each under its own id. */
  ghost predicate TableExact(turns: seq<Turn>, pending: map<RequestId, nat>) {
    forall id, k: nat :: Waits(turns, k, id) <==> id in pending && pending[id] == k
  }

  ghost predicate Keeps(turns: seq<Turn>, s: State) {
    && Accounted(turns, s.done) && TableExact(turns, s.pending)
    && (s.running ==> forall id :: id in s.pending <==> Outstanding(turns, id))
  }

  lemma {:induction false} FirstReplySnoc(turns: seq<Turn>, t: Turn, id: RequestId)
    ensures FirstReply(turns + [t], id) == if FirstReply(turns, id).Some? then FirstReply(turns, id) else ReplyIn(t, id)
  {
    if turns != [] {
      assert (turns + [t])[1..] == turns[1..] + [t];
      FirstReplySnoc(turns[1..], t, id);
    }
  }

  lemma OutstandingSnoc(turns: seq<Turn>, t: Turn, id: RequestId)
    ensures Outstanding(turns + [t], id) <==> Asks(t, id) || (ReplyIn(t, id).None? && Outstanding(turns, id))
  {
  }

  /** A later turn only adds the answer to a request that waits. */
  lemma ToldSnoc(turns: seq<Turn>, t: Turn, k: nat)
    requires k < |turns| && turns[k].input.Taken?
    ensures Told(turns, k).Some? ==> Told(turns + [t], k) == Told(turns, k)
    ensures Told(turns, k).None? ==>
              turns[k].input.command.Ask? && Told(turns + [t], k) == ReplyIn(t, turns[k].input.command.id)
  {
    var ts := turns + [t];
    assert ts[..k] == turns[..k];
    assert ts[k + 1..] == turns[k + 1..] + [t];
    if turns[k].input.command.Ask? {
      FirstReplySnoc(turns[k + 1..], t, turns[k].input.command.id);
    }
  }

  /** A turn that brings no answer changes nothing for the commands before it. */
  lemma QuietTurn(turns: seq<Turn>, t: Turn, k: nat)
    requires k < |turns| && forall id :: ReplyIn(t, id).None?
    ensures forall o :: IsTold(turns + [t], k, o) <==> IsTold(turns, k, o)
    ensures forall id :: Waits(turns + [t], k, id) <==> Waits(turns, k, id)
  {
    if turns[k].input.Taken? {
      ToldSnoc(turns, t, k);
    }
  }

  /** What a command is told in its own turn. */
  function ToldAtOnce(turns: seq<Turn>, t: Turn): Option<Outcome>
    requires t.input.Taken?
  {
    match t.input.command
    case Ask(id, _) =>
      if Outstanding(turns, id) then Some(IoFailed(DUPLICATE))
      else if t.write.Some? then Some(IoFailed(t.write.value))
      else None
    case Tell(_) => Some(FromWrite(t.write))
    case Shutdown(failure) => Some(FromWrite(failure))
  }

  lemma LastTold(turns: seq<Turn>, t: Turn)
    requires t.input.Taken?
    ensures Told(turns + [t], |turns|) == ToldAtOnce(turns, t)
  {
  }

  /** A turn whose command is answered at once. */
  lemma AnsweredAtOnce(turns: seq<Turn>, t: Turn, done: seq<Completion>, pending: map<RequestId, nat>, o: Outcome)
    requires t.input.Taken? && Told(turns + [t], |turns|) == Some(o)
    requires Accounted(turns, done) && TableExact(turns, pending)
    ensures Accounted(turns + [t], done + [Completion(|turns|, o)]) && TableExact(turns + [t], pending)
  {
    var ts, now := turns + [t], done + [Completion(|turns|, o)];
    forall c: Completion
      ensures multiset(now)[c] == if IsTold(ts, c.turn, c.outcome) then 1 else 0
    {
      if c.turn < |turns| {
        QuietTurn(turns, t, c.turn);
      }
    }
    forall id, k: nat
      ensures Waits(ts, k, id) <==> Waits(turns, k, id)
    {
      if k < |turns| {
        QuietTurn(turns, t, k);
      }
    }
  }

  /** A turn that brings no answer and is owed none. */
  lemma NothingTold(turns: seq<Turn>, t: Turn, done: seq<Completion>, pending: map<RequestId, nat>)
    requires !t.input.Taken? && (forall id :: ReplyIn(t, id).None?)
    requires Accounted(turns, done) && TableExact(turns, pending)
    ensures Accounted(turns + [t], done) && TableExact(turns + [t], pending)
  {
    var ts := turns + [t];
    forall c: Completion
      ensures multiset(done)[c] == if IsTold(ts, c.turn, c.outcome) then 1 else 0
    {
      if c.turn < |turns| {
        QuietTurn(turns, t, c.turn);
      }
    }
    forall id, k: nat
      ensures Waits(ts, k, id) <==> Waits(turns, k, id)
    {
      if k < |turns| {
        QuietTurn(turns, t, k);
      }
    }
  }

  /** A request that starts to wait. */
  lemma StartsToWait(turns: seq<Turn>, t: Turn, id: RequestId, done: seq<Completion>, pending: map<RequestId, nat>)
    requires Asks(t, id) && Told(turns + [t], |turns|) == None && id !in pending
    requires Accounted(turns, done) && TableExact(turns, pending)
    ensures Accounted(turns + [t], done) && TableExact(turns + [t], pending[id := |turns|])
  {
    var ts, now := turns + [t], pending[id := |turns|];
    forall c: Completion
      ensures multiset(done)[c] == if IsTold(ts, c.turn, c.outcome) then 1 else 0
    {
      if c.turn < |turns| {
        QuietTurn(turns, t, c.turn);
      }
    }
    forall i, k: nat
      ensures Waits(ts, k, i) <==> i in now && now[i] == k
    {
      if k < |turns| {
        QuietTurn(turns, t, k);
        assert Waits(turns, k, i) <==> i in pending && pending[i] == k;
      } else if i in pending {
        assert Waits(turns, pending[i], i);
      }
    }
  }

  /** An answer: the one request that waits under its id is told it. */
  lemma AnswerArrives(turns: seq<Turn>, t: Turn, id: RequestId, o: Outcome, done: seq<Completion>, pending: map<RequestId, nat>)
    requires !t.input.Taken? && (forall i :: ReplyIn(t, i) == if i == id then Some(o) else None)
    requires Accounted(turns, done) && TableExact(turns, pending)
    ensures Accounted(turns + [t], if id in pending then done + [Completion(pending[id], o)] else done)
    ensures TableExact(turns + [t], pending - {id})
  {
    var ts, now := turns + [t], if id in pending then done + [Completion(pending[id], o)] else done;
    forall c: Completion
      ensures multiset(now)[c] == if IsTold(ts, c.turn, c.outcome) then 1 else 0
    {
      assert multiset(done)[c] == if IsTold(turns, c.turn, c.outcome) then 1 else 0;
      if c.turn < |turns| && turns[c.turn].input.Taken? {
        ToldSnoc(turns, t, c.turn);
        assert Waits(turns, c.turn, id) <==> id in pending && pending[id] == c.turn;
      }
      if id in pending {
        assert Waits(turns, pending[id], id);
      }
    }
    forall i, k: nat
      ensures Waits(ts, k, i) <==> i in pending - {id} && (pending - {id})[i] == k
    {
      assert Waits(turns, k, i) <==> i in pending && pending[i] == k;
      if k < |turns| && turns[k].input.Taken? {
        ToldSnoc(turns, t, k);
      }
    }
  }

  lemma CommandTold(turns: seq<Turn>, t: Turn, s: State)
    requires t.input.Taken? && Keeps(turns, s) && s.running
    ensures Accounted(turns + [t], Step(s, |turns|, t).done) && TableExact(turns + [t], Step(s, |turns|, t).pending)
  {
    var c := t.input.command;
    LastTold(turns, t);
    if c.Ask? && c.id !in s.pending && t.write.None? {
      StartsToWait(turns, t, c.id, s.done, s.pending);
    } else {
      AnsweredAtOnce(turns, t, s.done, s.pending, ToldAtOnce(turns, t).value);
    }
  }

  lemma FrameTold(turns: seq<Turn>, t: Turn, s: State)
    requires !t.input.Taken? && Keeps(turns, s)
    ensures Accounted(turns + [t], Step(s, |turns|, t).done) && TableExact(turns + [t], Step(s, |turns|, t).pending)
  {
    match t.input
    case Received(Parsed(Response(id, result))) =>
      AnswerArrives(turns, t, id, Answered(result), s.done, s.pending);
      NothingRemoved(s.pending, id);
    case Received(Parsed(Error(id, error))) =>
      AnswerArrives(turns, t, id, Refused(error), s.done, s.pending);
      NothingRemoved(s.pending, id);
    case _ =>
      NothingTold(turns, t, s.done, s.pending);
  }

  lemma NothingRemoved(pending: map<RequestId, nat>, id: RequestId)
    ensures id !in pending ==> pending - {id} == pending
  {
  }

  /** The table knows an id just when the last turn that concerns it asks for it. */
  lemma StepOutstanding(turns: seq<Turn>, t: Turn, s: State, id: RequestId)
    requires s.running && (id in s.pending <==> Outstanding(turns, id)) && Step(s, |turns|, t).running
    ensures id in Step(s, |turns|, t).pending <==> Outstanding(turns + [t], id)
  {
    OutstandingSnoc(turns, t, id);
  }

  lemma StepKeeps(turns: seq<Turn>, t: Turn, s: State)
    requires Keeps(turns, s) && s.running
    ensures Keeps(turns + [t], Step(s, |turns|, t))
  {
    if t.input.Taken? {
      CommandTold(turns, t, s);
    } else {
      FrameTold(turns, t, s);
    }
    if Step(s, |turns|, t).running {
      forall id
        ensures id in Step(s, |turns|, t).pending <==> Outstanding(turns + [t], id)
      {
        StepOutstanding(turns, t, s, id);
      }
    }
  }

  /** In every run, finished or not, the answers given and the table are exactly those owed. */
  lemma {:induction false} RunKeeps(turns: seq<Turn>)
    requires IsRun(turns)
    ensures Keeps(turns, Run(turns))
  {
    if turns != [] {
      var init := turns[..|turns| - 1];
      RunKeeps(init);
      Snoc(turns);
      StepKeeps(init, turns[|turns| - 1], Run(init));
    }
  }

  // ----- exit

  /** What the requests that still wait at the end are told. */
  function DrainError(exit: Option<IoError>): IoError {
    if exit.Some? then exit.value else IoError(BrokenPipe, "remote app-server worker channel is closed")
  }

  /** What the command taken in turn `k` is told in the end. */
  function Owed(turns: seq<Turn>, k: nat, exit: IoError): Outcome
    requires k < |turns| && turns[k].input.Taken?
  {
    if Told(turns, k).Some? then Told(turns, k).value else IoFailed(exit)
  }

  /** Each command was answered once, with what it is owed; nothing else was answered. */
  ghost predicate CompletedOnce(turns: seq<Turn>, done: seq<Completion>, exit: IoError) {
    forall c: Completion ::
      multiset(done)[c] ==
      if c.turn < |turns| && turns[c.turn].input.Taken? && c.outcome == Owed(turns, c.turn, exit) then 1 else 0
  }

  /** A request that waited at the exit and is no longer left to be told. */
  predicate IsDrained(turns: seq<Turn>, k: nat, left: map<RequestId, nat>) {
    k < |turns| && turns[k].input.Taken? && Told(turns, k) == None && turns[k].input.command.id !in left
  }

  ghost predicate Draining(turns: seq<Turn>, done: seq<Completion>, left: map<RequestId, nat>, exit: IoError) {
    forall c: Completion ::
      multiset(done)[c] ==
      if IsTold(turns, c.turn, c.outcome) || (IsDrained(turns, c.turn, left) && c.outcome == IoFailed(exit)) then 1 else 0
  }

  ghost predicate PartOf(left: map<RequestId, nat>, pending: map<RequestId, nat>) {
    forall id :: id in left ==> id in pending && left[id] == pending[id]
  }

  lemma DrainStart(turns: seq<Turn>, done: seq<Completion>, pending: map<RequestId, nat>, exit: IoError)
    requires Accounted(turns, done) && TableExact(turns, pending)
    ensures Draining(turns, done, pending, exit)
  {
    forall c: Completion
      ensures !IsDrained(turns, c.turn, pending)
    {
      if IsDrained(turns, c.turn, pending) {
        assert Waits(turns, c.turn, turns[c.turn].input.command.id);
      }
    }
  }

  lemma DrainOne(turns: seq<Turn>, done: seq<Completion>, pending: map<RequestId, nat>,
                 left: map<RequestId, nat>, exit: IoError, id: RequestId)
    requires TableExact(turns, pending) && PartOf(left, pending) && id in left && Draining(turns, done, left, exit)
    ensures Draining(turns, done + [Completion(left[id], IoFailed(exit))], left - {id}, exit)
  {
    var now := done + [Completion(left[id], IoFailed(exit))];
    assert Waits(turns, left[id], id);
    forall c: Completion
      ensures multiset(now)[c] ==
              if IsTold(turns, c.turn, c.outcome) || (IsDrained(turns, c.turn, left - {id}) && c.outcome == IoFailed(exit))
              then 1 else 0
    {
      if c.turn < |turns| && turns[c.turn].input.Taken? && Told(turns, c.turn) == None {
        assert Waits(turns, c.turn, turns[c.turn].input.command.id);
      }
    }
  }

  lemma DrainEnd(turns: seq<Turn>, done: seq<Completion>, exit: IoError)
    requires Draining(turns, done, map[], exit)
    ensures CompletedOnce(turns, done, exit)
  {
  }

  // ----- the event stream

  function EventsIn(f: Frame): seq<Event> {
    match f
    case Parsed(Notification(name, true)) => [FromNotification(name)]
    case Parsed(Request(id, name, true)) => [FromRequest(id, name)]
    case _ => []
  }

  /** The events of the frames, in the order of the wire. */
  function Stream(frames: seq<Frame>): seq<Event> {
    if frames == [] then [] else Stream(frames[..|frames| - 1]) + EventsIn(frames[|frames| - 1])
  }

  lemma StreamSnoc(frames: seq<Frame>, f: Frame)
    ensures Stream(frames + [f]) == Stream(frames) + EventsIn(f)
  {
  }

  lemma StreamConcatStep(x: seq<Event>, init: seq<Frame>, f: Frame, both: seq<Frame>)
    requires Stream(both) == x + Stream(init)
    ensures Stream(both + [f]) == x + Stream(init + [f])
  {
    StreamSnoc(both, f);
    StreamSnoc(init, f);
    Regroup(x, Stream(init), EventsIn(f));
  }

  lemma Regroup(x: seq<Event>, y: seq<Event>, z: seq<Event>)
    ensures x + y + z == x + (y + z)
  {
  }

  lemma {:induction false} StreamConcat(a: seq<Frame>, b: seq<Frame>)
    ensures Stream(a + b) == Stream(a) + Stream(b)
  {
    if b == [] {
      assert a + b == a;
    } else {
      var init, f := b[..|b| - 1], b[|b| - 1];
      StreamConcat(a, init);
      assert b == init + [f] && a + b == (a + init) + [f];
      StreamConcatStep(Stream(a), init, f, a + init);
    }
  }

  lemma {:induction false} NeverDisconnected(frames: seq<Frame>)
    ensures forall i :: 0 <= i < |Stream(frames)| ==> !Stream(frames)[i].Disconnected?
  {
    if frames != [] {
      NeverDisconnected(frames[..|frames| - 1]);
    }
  }

  /** The frames received in a run. */
  function Frames(turns: seq<Turn>): seq<Frame> {
    if turns == [] then []
    else
      var t := turns[|turns| - 1];
      Frames(turns[..|turns| - 1]) + if t.input.Received? then [t.input.frame] else []
  }

  lemma FramesSnoc(turns: seq<Turn>, t: Turn)
    ensures Frames(turns + [t]) == Frames(turns) + if t.input.Received? then [t.input.frame] else []
  {
  }

  /** What the last turn of a finished run adds to the events: at most the notice that the connection is gone. */
  function Notice(t: Turn, exit: Option<IoError>): seq<Event> {
    if exit.Some? && t.listening then [Disconnected(exit.value.message)] else []
  }

  lemma OneFrame(f: Frame)
    ensures Stream([f]) == EventsIn(f)
  {
    StreamSnoc([], f);
    assert [] + [f] == [f];
  }

  /** What a turn does to the events, and whether the worker goes on. */
  ghost predicate Grows(s: State, w: State, more: seq<Event>, t: Turn) {
    && (w.running ==> w.exit.None? && w.events == s.events + more)
    && (!w.running ==> w.events == s.events + Notice(t, w.exit))
  }

  lemma HearEvents(s: State, m: Message, t: Turn, more: seq<Event>)
    requires s.running && s.exit.None?
    requires more == EventsIn(Parsed(m))
    ensures Grows(s, Hear(s, m, t), more, t)
    ensures EventsIn(Parsed(m)) != [] ==> Hear(s, m, t).running == t.listening
  {
  }

  lemma ObeyEvents(s: State, k: nat, c: Command, t: Turn)
    requires s.running && s.exit.None?
    ensures Grows(s, Obey(s, k, c, t), [], t)
  {
  }

  lemma StepEvents(s: State, k: nat, t: Turn)
    requires s.running && s.exit.None?
    ensures Grows(s, Step(s, k, t), Stream(if t.input.Received? then [t.input.frame] else []), t)
    ensures t.input.Received? && EventsIn(t.input.frame) != [] ==> Step(s, k, t).running == t.listening
  {
    match t.input
    case NoMoreCommands =>
    case Taken(c) => ObeyEvents(s, k, c, t);
    case Received(f) =>
      OneFrame(f);
      if f.Parsed? {
        HearEvents(s, f.message, t, Stream([f]));
      }
  }

  /** While the worker runs, the events are those on the wire; a notice may follow when it stops. */
  lemma {:induction false} EventsFollowTheWire(turns: seq<Turn>)
    requires IsRun(turns)
    ensures Run(turns).running ==> Run(turns).exit.None? && Run(turns).events == Stream(Frames(turns))
    ensures !Run(turns).running ==>
              && turns != []
              && Run(turns).events ==
                 Stream(Frames(turns[..|turns| - 1])) + Notice(turns[|turns| - 1], Run(turns).exit)
  {
    if turns != [] {
      var init, t := turns[..|turns| - 1], turns[|turns| - 1];
      EventsFollowTheWire(init);
      StepEvents(Run(init), |init|, t);
      FramesSnoc(init, t);
      StreamConcat(Frames(init), if t.input.Received? then [t.input.frame] else []);
      Snoc(turns);
    }
  }

  /** No event is lost while the consumer listens. */
  lemma NothingLost(turns: seq<Turn>)
    requires IsRun(turns) && turns != [] && !Run(turns).running && turns[|turns| - 1].listening
    ensures Run(turns).events == Stream(Frames(turns)) + Notice(turns[|turns| - 1], Run(turns).exit)
  {
    var init, t := turns[..|turns| - 1], turns[|turns| - 1];
    EventsFollowTheWire(turns);
    EventsFollowTheWire(init);
    LastFrameIsSilent(Run(init), |init|, t);
    SilentFrame(init, t);
    Snoc(turns);
  }

  lemma LastFrameIsSilent(s: State, k: nat, t: Turn)
    requires s.running && s.exit.None? && !Step(s, k, t).running && t.listening
    ensures t.input.Received? ==> EventsIn(t.input.frame) == []
  {
  }

  lemma SilentFrame(turns: seq<Turn>, t: Turn)
    requires t.input.Received? ==> EventsIn(t.input.frame) == []
    ensures Stream(Frames(turns + [t])) == Stream(Frames(turns))
  {
    FramesSnoc(turns, t);
    if t.input.Received? {
      StreamSnoc(Frames(turns), t.input.frame);
    } else {
      assert Frames(turns + [t]) == Frames(turns);
    }
  }

  /** The notice comes last, once, and only with the error that ended the worker. */
  lemma {:induction false} DisconnectedIsLast(turns: seq<Turn>, i: nat)
    requires IsRun(turns) && i < |Run(turns).events| && Run(turns).events[i].Disconnected?
    ensures i == |Run(turns).events| - 1 && !Run(turns).running
    ensures Run(turns).exit.Some? && Run(turns).events[i].message == Run(turns).exit.value.message
  {
    EventsFollowTheWire(turns);
    if Run(turns).running {
      NeverDisconnected(Frames(turns));
    } else {
      NeverDisconnected(Frames(turns[..|turns| - 1]));
    }
  }

  // ----- requests that do not convert

  predicate IsUnknown(t: Turn) {
    t.input.Received? && t.input.frame.Parsed? && t.input.frame.message.Request? && !t.input.frame.message.known
  }

  function Rejections(turns: seq<Turn>): seq<Rejection> {
    if turns == [] then []
    else
      var t := turns[|turns| - 1];
      Rejections(turns[..|turns| - 1]) + if IsUnknown(t) && t.write.None? then [Rejection(t.input.frame.message.id, -32601)] else []
  }

  lemma StepRejects(s: State, k: nat, t: Turn)
    ensures Step(s, k, t).rejected == s.rejected + if IsUnknown(t) && t.write.None? then [Rejection(t.input.frame.message.id, -32601)] else []
    ensures IsUnknown(t) && t.write.Some? ==>
              !Step(s, k, t).running && Step(s, k, t).exit == Some(WriteProblem(t.write.value))
  {
  }

  /** Each request that does not convert is rejected once and in order, or its failed rejection ends the run. */
  lemma {:induction false} UnknownRequests(turns: seq<Turn>, k: nat)
    requires IsRun(turns)
    ensures Run(turns).rejected == Rejections(turns)
    ensures k < |turns| && IsUnknown(turns[k]) && turns[k].write.Some? ==>
              k == |turns| - 1 && !Run(turns).running && Run(turns).exit == Some(WriteProblem(turns[k].write.value))
  {
    if turns != [] {
      var init, t := turns[..|turns| - 1], turns[|turns| - 1];
      UnknownRequests(init, k);
      StepRejects(Run(init), |init|, t);
    }
  }

  // ----- the worker loop

  class Worker {
    var pending: map<RequestId, nat>
    var done: seq<Completion>
    var events: seq<Event>
    var rejected: seq<Rejection>
    var exit: Option<IoError>
    var running: bool

    function View(): State
      reads this
    {
      State(pending, done, events, rejected, exit, running)
    }

    constructor ()
      ensures View() == START
    {
      pending, done, events, rejected, exit, running := map[], [], [], [], None, true;
    }

    method Complete(turn: nat, outcome: Outcome)
      modifies `done
      ensures done == old(done) + [Completion(turn, outcome)]
    {
      done := done + [Completion(turn, outcome)];
    }

    /** Tells a listening consumer, notes the error and ends the loop. */
    method Stop(problem: IoError, listening: bool)
      modifies `events, `exit, `running
      ensures View() == Leave(old(View()), problem, listening)
    {
      if listening {
        events := events + [Disconnected(problem.message)];
      }
      exit, running := Some(problem), false;
    }

    method TakeRequest(k: nat, id: RequestId, t: Turn)
      requires Asks(t, id)
      modifies this
      ensures View() == Step(old(View()), k, t)
    {
      if id in pending {
        Complete(k, IoFailed(DUPLICATE));
        return;
      }
      pending := pending[id := k];
      if t.write.Some? {
        var waiter := pending[id];
        pending := pending - {id};
        assert pending == old(pending);
        Complete(waiter, IoFailed(t.write.value));
        Stop(WriteProblem(t.write.value), t.listening);
      }
    }

    method TakeAnswer(id: RequestId, outcome: Outcome)
      modifies `pending, `done
      ensures View() == Settle(old(View()), id, outcome)
    {
      if id in pending {
        var waiter := pending[id];
        pending := pending - {id};
        Complete(waiter, outcome);
      }
    }

    method TakeMessage(m: Message, t: Turn)
      modifies this
      ensures View() == Hear(old(View()), m, t)
    {
      match m
      case Response(id, result) => TakeAnswer(id, Answered(result));
      case Error(id, error) => TakeAnswer(id, Refused(error));
      case Notification(name, known) =>
        if known {
          if t.listening {
            events := events + [FromNotification(name)];
          } else {
            running := false;
          }
        }
      case Request(id, name, known) =>
        if known {
          if t.listening {
            events := events + [FromRequest(id, name)];
          } else {
            running := false;
          }
        } else if t.write.Some? {
          Stop(WriteProblem(t.write.value), t.listening);
        } else {
          rejected := rejected + [Unsupported(id)];
        }
    }

    method Take(k: nat, t: Turn)
      modifies this
      ensures View() == Step(old(View()), k, t)
    {
      match t.input
      case NoMoreCommands => running := false;
      case Taken(Ask(id, _)) => TakeRequest(k, id, t);
      case Taken(Tell(_)) => Complete(k, FromWrite(t.write));
      case Taken(Shutdown(failure)) =>
        Complete(k, FromWrite(failure));
        running := false;
      case Received(Parsed(m)) => TakeMessage(m, t);
      case Received(f) =>
        if Problem(f).Some? {
          Stop(Problem(f).value, t.listening);
        }
    }

    /** Fails whatever still waits, in any order. */
    method Drain(ghost turns: seq<Turn>) returns (error: IoError)
      requires Keeps(turns, View())
      modifies `done
      ensures error == DrainError(exit)
      ensures CompletedOnce(turns, done, error)
    {
      error := if exit.Some? then exit.value else WORKER_CLOSED;
      var left := pending;
      DrainStart(turns, done, pending, error);
      while left.Keys != {}
        invariant PartOf(left, pending) && Draining(turns, done, left, error)
        decreases |left.Keys|
      {
        var id :| id in left;
        DrainOne(turns, done, pending, left, error, id);
        Complete(left[id], IoFailed(error));
        assert (left - {id}).Keys == left.Keys - {id};
        left := left - {id};
      }
      assert left == map[];
      DrainEnd(turns, done, error);
    }
  }

  // ----- the handshake

  const INITIALIZE: RequestId := Protocol.Text("initialize")

  /** A frame that arrives before the deadline of the handshake, and how the write it causes fails, if it does. */
  datatype Arrival = Arrival(frame: Frame, write: Option<IoError>)

  function ArrivedFrames(arrivals: seq<Arrival>): (frames: seq<Frame>)
    ensures |frames| == |arrivals|
  {
    seq(|arrivals|, i requires 0 <= i < |arrivals| => arrivals[i].frame)
  }

  /** How a frame ends the handshake, if it does. */
  datatype Verdict = GoOn | Accepted | Rejected(error: IoError)

  function Judge(a: Arrival): Verdict {
    match a.frame
    case Parsed(Response(id, _)) => if id == INITIALIZE then Accepted else GoOn
    case Parsed(Error(id, error)) =>
      if id == INITIALIZE then Rejected(IoError(Other, "rejected initialize: " + error)) else GoOn
    case Parsed(Notification(_, _)) => GoOn
    case Parsed(Request(_, _, known)) => if !known && a.write.Some? then Rejected(a.write.value) else GoOn
    case Garbled(problem) => Rejected(IoError(Other, "sent invalid initialize response: " + problem))
    case Close(reason) => Rejected(IoError(ConnectionAborted, "closed during initialize: " + EarlyCloseReason(reason)))
    case Skipped => GoOn
    case Broken(problem) => Rejected(IoError(Other, "transport failed during initialize: " + problem))
    case Ended => Rejected(IoError(UnexpectedEof, "closed during initialize"))
  }

  /** The frame that accepts the handshake, told by itself. */
  predicate Accepts(f: Frame) {
    f.Parsed? && f.message.Response? && f.message.id == Protocol.Text("initialize")
  }

  /** The kind of the error with which a frame fails the handshake, if it does. */
  function FailureKind(a: Arrival): Option<ErrorKind> {
    match a.frame
    case Parsed(Error(id, _)) => if id == Protocol.Text("initialize") then Some(Other) else None
    case Parsed(Request(_, _, false)) => if a.write.Some? then Some(a.write.value.kind) else None
    case Garbled(_) => Some(Other)
    case Close(_) => Some(ConnectionAborted)
    case Broken(_) => Some(Other)
    case Ended => Some(UnexpectedEof)
    case _ => None
  }

  /** None of the frames settles the handshake. */
  ghost predicate StillOpen(arrivals: seq<Arrival>) {
    forall i :: 0 <= i < |arrivals| ==> !Accepts(arrivals[i].frame) && FailureKind(arrivals[i]).None?
  }

  lemma JudgedBy(a: Arrival)
    ensures Judge(a).Accepted? <==> Accepts(a.frame)
    ensures Judge(a).Rejected? <==> FailureKind(a).Some?
    ensures Judge(a).Rejected? ==> Judge(a).error.kind == FailureKind(a).value
  {
  }

  /** A connection that is closed during the handshake says why, even if the server does not. */
  lemma ClosedEarly(a: Arrival)
    requires a.frame.Close?
    ensures Judge(a).Rejected?
    ensures Judge(a).error.message ==
            "closed during initialize: " +
            if a.frame.reason.None? || a.frame.reason.value == "" then "connection closed during initialize" else a.frame.reason.value
  {
  }

  function EarlyCloseReason(reason: Option<string>): string {
    if reason.Some? && reason.value != "" then reason.value else "connection closed during initialize"
  }

  const TIMED_OUT := IoError(TimedOut, "timed out waiting for initialize response")

  /** The handshake with the server: the events it brings along, or the error it fails with. */
  datatype Handshake = Ready(events: seq<Event>, rejected: seq<Rejection>) | Unready(error: IoError)

  function UnknownIn(f: Frame): seq<Rejection> {
    if f.Parsed? && f.message.Request? && !f.message.known then [Rejection(f.message.id, -32601)] else []
  }

  function UnknownAnswers(arrivals: seq<Arrival>): seq<Rejection> {
    if arrivals == [] then []
    else UnknownAnswers(arrivals[..|arrivals| - 1]) + UnknownIn(arrivals[|arrivals| - 1].frame)
  }

  lemma ArrivalStep(arrivals: seq<Arrival>, n: nat)
    requires n < |arrivals|
    ensures ArrivedFrames(arrivals[..n + 1]) == ArrivedFrames(arrivals[..n]) + [arrivals[n].frame]
    ensures UnknownAnswers(arrivals[..n + 1]) == UnknownAnswers(arrivals[..n]) + UnknownIn(arrivals[n].frame)
  {
    assert arrivals[..n + 1][..n] == arrivals[..n];
  }

  /** What the first frames of a handshake brought along. */
  ghost predicate Collected(arrivals: seq<Arrival>, n: nat, events: seq<Event>, rejected: seq<Rejection>)
    requires n <= |arrivals|
  {
    events == Stream(ArrivedFrames(arrivals[..n])) && rejected == UnknownAnswers(arrivals[..n])
  }

  lemma CollectedSoFar(arrivals: seq<Arrival>, n: nat, events: seq<Event>, rejected: seq<Rejection>)
    requires n < |arrivals|
    requires events == Stream(ArrivedFrames(arrivals[..n])) + EventsIn(arrivals[n].frame)
    requires rejected == UnknownAnswers(arrivals[..n]) + UnknownIn(arrivals[n].frame)
    ensures Collected(arrivals, n + 1, events, rejected)
  {
    ArrivalStep(arrivals, n);
    StreamSnoc(ArrivedFrames(arrivals[..n]), arrivals[n].frame);
  }

  /** A frame that does not settle the handshake may bring an event or a request to reject. */
  method CollectFrame(f: Frame, events: seq<Event>, rejected: seq<Rejection>)
    returns (allEvents: seq<Event>, allRejected: seq<Rejection>)
    ensures allEvents == events + EventsIn(f)
    ensures allRejected == rejected + UnknownIn(f)
  {
    allEvents, allRejected := events, rejected;
    match f
    case Parsed(Notification(name, true)) => allEvents := events + [FromNotification(name)];
    case Parsed(Request(id, name, true)) => allEvents := events + [FromRequest(id, name)];
    case Parsed(Request(id, _, false)) => allRejected := rejected + [Unsupported(id)];
    case _ =>
  }

  /** The outcome of a handshake that the `n`-th frame settles. */
  ghost predicate Settles(arrivals: seq<Arrival>, n: nat, last: Option<IoError>, result: Handshake)
    requires n < |arrivals|
  {
    match Judge(arrivals[n])
    case GoOn => false
    case Rejected(error) => result == Unready(error)
    case Accepted =>
      result == if last.Some? then Unready(last.value)
                else Ready(Stream(ArrivedFrames(arrivals[..n])), UnknownAnswers(arrivals[..n]))
  }

  /**
   * Reads frames until one settles the handshake, the `n`-th; all before it are as the worker would treat
   * them. With no such frame the deadline passes.
   */
  method InitializeRemoteConnection(arrivals: seq<Arrival>, first: Option<IoError>, last: Option<IoError>)
    returns (result: Handshake, n: nat)
    ensures n <= |arrivals| && StillOpen(arrivals[..n])
    ensures first.Some? ==> n == 0 && result == Unready(first.value)
    ensures first.None? && n == |arrivals| ==> result.Unready? && result.error.kind == TimedOut
    ensures first.None? && n < |arrivals| ==> Judge(arrivals[n]) != GoOn && Settles(arrivals, n, last, result)
    ensures first.None? && n < |arrivals| && !Accepts(arrivals[n].frame) ==>
              result.Unready? && FailureKind(arrivals[n]) == Some(result.error.kind)
    ensures result.Ready? <==> first.None? && last.None? && n < |arrivals| && Accepts(arrivals[n].frame)
  {
    n := 0;
    if first.Some? {
      return Unready(first.value), n;
    }
    var events: seq<Event>, rejected: seq<Rejection> := [], [];
    while n < |arrivals|
      invariant n <= |arrivals| && StillOpen(arrivals[..n])
      invariant Collected(arrivals, n, events, rejected)
    {
      JudgedBy(arrivals[n]);
      var verdict := Judge(arrivals[n]);
      if verdict.Accepted? {
        result := if last.Some? then Unready(last.value) else Ready(events, rejected);
        return;
      }
      if verdict.Rejected? {
        result := Unready(verdict.error);
        return;
      }
      events, rejected := CollectFrame(arrivals[n].frame, events, rejected);
      CollectedSoFar(arrivals, n, events, rejected);
      n := n + 1;
    }
    result := Unready(TIMED_OUT);
  }

  // ----- what the client reads

  /** The events of the handshake and of the worker are those of the whole wire, in its order. */
  lemma OneWire(early: seq<Frame>, turns: seq<Turn>)
    requires IsRun(turns)
    ensures Run(turns).running ==> Stream(early) + Run(turns).events == Stream(early + Frames(turns))
    ensures !Run(turns).running && turns[|turns| - 1].listening ==>
              Stream(early) + Run(turns).events ==
              Stream(early + Frames(turns)) + Notice(turns[|turns| - 1], Run(turns).exit)
  {
    var now := Run(turns);
    StreamConcat(early, Frames(turns));
    EventsFollowTheWire(turns);
    if !now.running && turns[|turns| - 1].listening {
      NothingLost(turns);
      OneWireAt(early, Frames(turns), now.events, Notice(turns[|turns| - 1], now.exit));
    }
  }

  lemma OneWireAt(early: seq<Frame>, frames: seq<Frame>, events: seq<Event>, notice: seq<Event>)
    requires events == Stream(frames) + notice
    ensures Stream(early) + events == Stream(early + frames) + notice
  {
    StreamConcat(early, frames);
    assert Stream(early) + (Stream(frames) + notice) == (Stream(early) + Stream(frames)) + notice;
  }

  lemma HearExtends(s: State, m: Message, t: Turn)
    ensures s.events <= Hear(s, m, t).events
  {
  }

  lemma StepExtends(s: State, k: nat, t: Turn)
    ensures s.events <= Step(s, k, t).events
  {
    if t.input.Received? && t.input.frame.Parsed? {
      HearExtends(s, t.input.frame.message, t);
    }
  }

  /** An event is in the same place whether it is read before or after the channel grows. */
  lemma ChannelGrows(read: seq<Event>, early: seq<Event>, was: seq<Event>, now: seq<Event>, taken: nat)
    requires taken <= |was| && was <= now
    ensures read + (early + now[taken..]) == (read + (early + was[taken..])) + now[|was|..]
  {
    assert now == was + now[|was|..];
    assert now[taken..] == was[taken..] + now[|was|..];
  }

  /** After the turns from `m` on and before `n`, everything there was to read had been read. */
  ghost predicate AllRead(turns: seq<Turn>, m: nat, n: nat, first: seq<Event>, read: seq<Event>)
    requires n <= |turns|
  {
    forall k :: m <= k < n ==> first + Run(turns[..k]).events == read
  }

  lemma AllReadSnoc(turns: seq<Turn>, m: nat, n: nat, first: seq<Event>, read: seq<Event>)
    requires n < |turns| && AllRead(turns, m, n, first, read) && first + Run(turns[..n]).events == read
    ensures AllRead(turns, m, n + 1, first, read)
  {
  }

  /** What comes of looking for the next event. */
  datatype Poll = Waiting | Yields(event: Option<Event>)

  /** The client and the worker that it has started; the worker's events wait in a channel until they are read. */
  class Client {
    const worker: Worker
    var pendingEvents: seq<Event>
    var taken: nat
    ghost var first: seq<Event>
    ghost var received: seq<Event>

    /** Everything that repeated calls of `NextEvent` yield. */
    function Readable(): seq<Event>
      requires taken <= |worker.events|
      reads this, worker
    {
      pendingEvents + worker.events[taken..]
    }

    /** What was read and what can be read are the events of the handshake and of the worker. */
    ghost predicate Valid()
      reads this, worker
    {
      taken <= |worker.events| && received + Readable() == first + worker.events
    }

    constructor (events: seq<Event>)
      ensures Valid() && fresh(worker) && worker.View() == START && first == events && received == []
    {
      worker := new Worker();
      pendingEvents, taken, first, received := events, 0, events, [];
    }

    /** What a look for the next event says, if `before` had been read. */
    ghost predicate Tells(poll: Poll, before: seq<Event>)
      requires Valid()
      reads this, worker
    {
      match poll
      case Waiting => worker.running && Readable() == [] && received == before
      case Yields(None) => !worker.running && Readable() == [] && received == before
      case Yields(Some(event)) => received == before + [event]
    }

    /** One look for the next event: it waits while the worker may still send one. */
    method PollEvent() returns (poll: Poll)
      requires Valid()
      modifies this
      ensures Valid() && first == old(first) && Tells(poll, old(received))
    {
      if pendingEvents != [] {
        poll := Yields(Some(pendingEvents[0]));
        pendingEvents := pendingEvents[1..];
        received := received + [poll.event.value];
      } else if taken < |worker.events| {
        poll := Yields(Some(worker.events[taken]));
        taken := taken + 1;
        received := received + [poll.event.value];
      } else {
        poll := if worker.running then Waiting else Yields(None);
      }
    }

    /** The worker has taken the first `m` turns. */
    ghost predicate After(turns: seq<Turn>, m: nat)
      reads worker
    {
      m <= |turns| && IsRun(turns[..m]) && worker.View() == Run(turns[..m])
    }

    method NextTurn(turns: seq<Turn>, m: nat)
      requires Valid() && After(turns, m) && m < |turns| && worker.running
      modifies worker
      ensures Valid() && After(turns, m + 1)
    {
      assert turns[..m + 1][..m] == turns[..m];
      TakeTurn(m, turns[m]);
    }

    /**
     * Waits for the next event while the worker takes turns, `m` of which are over, and no longer than it must. It
     * yields the next event of the whole wire, or nothing once the worker has stopped and everything is read; it
     * still waits if the worker runs after all turns.
     */
    method NextEvent(turns: seq<Turn>, m: nat) returns (poll: Poll, n: nat)
      requires Valid() && After(turns, m)
      modifies this, worker
      ensures Valid() && first == old(first) && m <= n && After(turns, n)
      ensures AllRead(turns, m, n, first, old(received))
      ensures Tells(poll, old(received)) && (poll.Waiting? ==> n == |turns|)
    {
      n := m;
      poll := PollEvent();
      while poll.Waiting? && n < |turns|
        invariant Valid() && first == old(first) && m <= n && After(turns, n)
        invariant AllRead(turns, m, n, first, old(received)) && Tells(poll, old(received))
        decreases |turns| - n
      {
        WaitingHasRead(turns, n, old(received));
        AllReadSnoc(turns, m, n, first, old(received));
        poll := PollAfterTurn(turns, n);
        n := n + 1;
      }
    }

    lemma WaitingHasRead(turns: seq<Turn>, n: nat, before: seq<Event>)
      requires Valid() && After(turns, n) && Tells(Waiting, before)
      ensures first + Run(turns[..n]).events == before
    {
    }

    /** The worker takes a turn while the client waits, and the client looks again. */
    method PollAfterTurn(turns: seq<Turn>, n: nat) returns (poll: Poll)
      requires Valid() && After(turns, n) && n < |turns| && worker.running
      modifies this, worker
      ensures Valid() && first == old(first) && After(turns, n + 1) && Tells(poll, old(received))
    {
      NextTurn(turns, n);
      poll := PollEvent();
    }

    /** At any moment the client may read some events. */
    method ReadSome()
      requires Valid()
      modifies this
      ensures Valid() && first == old(first)
    {
      assert 0 <= 0 <= |Readable()|;
      var n :| 0 <= n <= |Readable()|;
      for i := 0 to n
        invariant Valid() && first == old(first)
      {
        var poll := PollEvent();
      }
    }

    method TakeTurn(m: nat, t: Turn)
      requires Valid()
      modifies worker
      ensures Valid() && worker.View() == Step(old(worker.View()), m, t)
    {
      StepExtends(worker.View(), m, t);
      ghost var was := worker.events;
      worker.Take(m, t);
      ChannelGrows(received, pendingEvents, was, worker.events, taken);
    }

    method Listen(turns: seq<Turn>) returns (m: nat)
      requires Valid() && worker.View() == START
      modifies this, worker
      ensures Valid() && first == old(first) && After(turns, m)
      ensures worker.running ==> m == |turns|
    {
      m := 0;
      while m < |turns| && worker.running
        invariant Valid() && first == old(first) && After(turns, m)
      {
        ReadSome();
        NextTurn(turns, m);
        m := m + 1;
      }
      ReadSome();
    }

    /**
     * The worker through any turns, while the client reads as it likes. If a turn ends the loop, every command taken
     * has been answered exactly once; otherwise the answers and the table are as they should be so far. What the
     * client has read and can read are the events of the whole wire in order, those of the handshake first, and
     * then at most the notice that the connection is gone.
     */
    method Serve(ghost early: seq<Frame>, turns: seq<Turn>) returns (m: nat)
      requires Valid() && first == Stream(early) && worker.View() == START
      modifies this, worker
      ensures Valid() && m <= |turns| && IsRun(turns[..m]) && first == old(first)
      ensures worker.exit == Run(turns[..m]).exit && worker.running == Run(turns[..m]).running
      ensures worker.events == Run(turns[..m]).events && worker.rejected == Run(turns[..m]).rejected
      ensures worker.running ==> m == |turns| && Keeps(turns[..m], worker.View())
      ensures !worker.running ==>
                CompletedOnce(turns[..m], worker.done, DrainError(worker.exit))
      ensures worker.running ==> received + Readable() == Stream(early + Frames(turns[..m]))
      ensures !worker.running && m > 0 && turns[m - 1].listening ==>
                received + Readable() == Stream(early + Frames(turns[..m])) + Notice(turns[m - 1], worker.exit)
    {
      m := Listen(turns);
      RunKeeps(turns[..m]);
      OneWire(early, turns[..m]);
      if !worker.running {
        var error := worker.Drain(turns[..m]);
      }
    }
  }

  /**
   * A whole connection: the handshake, and, once it is settled, the worker. The client reads the events of the
   * whole wire, handshake included.
   */
  method Connect(arrivals: seq<Arrival>, first: Option<IoError>, last: Option<IoError>, turns: seq<Turn>)
    returns (error: Option<IoError>, client: Client?, n: nat, m: nat, rejected: seq<Rejection>)
    ensures error.Some? <==> client == null
    ensures client != null <==>
              && first.None? && last.None? && n < |arrivals| && Accepts(arrivals[n].frame)
    ensures n <= |arrivals| && m <= |turns| && StillOpen(arrivals[..n])
    ensures client != null ==> fresh(client) && fresh(client.worker) && client.Valid() && IsRun(turns[..m])
    ensures client != null ==> rejected == UnknownAnswers(arrivals[..n]) + Rejections(turns[..m])
    ensures client != null && client.worker.running ==>
              && m == |turns|
              && client.received + client.Readable() == Stream(ArrivedFrames(arrivals[..n]) + Frames(turns[..m]))
    ensures client != null && !client.worker.running ==>
              && m > 0
              && CompletedOnce(turns[..m], client.worker.done, DrainError(client.worker.exit))
    ensures client != null && !client.worker.running && m > 0 && turns[m - 1].listening ==>
              client.received + client.Readable() ==
              Stream(ArrivedFrames(arrivals[..n]) + Frames(turns[..m])) + Notice(turns[m - 1], client.worker.exit)
  {
    var result;
    m, rejected := 0, [];
    result, n := InitializeRemoteConnection(arrivals, first, last);
    if result.Unready? {
      return Some(result.error), null, n, m, rejected;
    }
    var connected := new Client(result.events);
    m := connected.Serve(ArrivedFrames(arrivals[..n]), turns);
    UnknownRequests(turns[..m], 0);
    rejected := result.rejected + connected.worker.rejected;
    return None, connected, n, m, rejected;
  }
}
