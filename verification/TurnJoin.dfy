/** The event of a turn joins facts that arrive in any order. */
module TurnJoin {
  import opened Wrappers
  import opened Seqs
  import opened Analytics

  // ----- runs from any state

  function RunFrom(s: State, facts: seq<Fact>): State {
    if facts == [] then s else Next(RunFrom(s, facts[..|facts| - 1]), facts[|facts| - 1])
  }

  predicate IsAbout(e: TrackEvent, turn: string) {
    (e.TurnDone? || e.AcceptedLines?) && e.turn == turn
  }

  function About(turn: string): TrackEvent -> bool {
    (e: TrackEvent) => IsAbout(e, turn)
  }

  /** The events about a turn that a fact causes. */
  function EventsAt(s: State, f: Fact, turn: string): seq<TrackEvent> {
    Filter(Sent(s, f), About(turn))
  }

  /** The events about a turn that a run sends. */
  function EventsOf(s: State, facts: seq<Fact>, turn: string): seq<TrackEvent> {
    if facts == [] then []
    else
      var init := facts[..|facts| - 1];
      EventsOf(s, init, turn) + EventsAt(RunFrom(s, init), facts[|facts| - 1], turn)
  }

  lemma {:induction false} FilterNone(events: seq<TrackEvent>, turn: string)
    requires forall i :: 0 <= i < |events| ==> !IsAbout(events[i], turn)
    ensures Filter(events, About(turn)) == []
  {
    if events != [] {
      FilterNone(events[1..], turn);
    }
  }

  lemma FilterFirst(a: seq<TrackEvent>, b: seq<TrackEvent>, turn: string)
    requires Filter(b, About(turn)) == []
    ensures Filter(a + b, About(turn)) == Filter(a, About(turn))
  {
    FilterAppend(a, b, About(turn));
  }

  lemma OtherSorts(s: State, f: Fact, turn: string)
    ensures Filter(ThreadEvents(s, f), About(turn)) == [] && Filter(SteerEvents(s, f), About(turn)) == []
    ensures Filter(ReviewEvents(s, f), About(turn)) == [] && Filter(ToolEvents(s, f), About(turn)) == []
  {
    FilterNone(ThreadEvents(s, f), turn);
    FilterNone(SteerEvents(s, f), turn);
    FilterNone(ReviewEvents(s, f), turn);
    FilterNone(ToolEvents(s, f), turn);
  }

  /** Only a turn that a fact joins causes events about a turn. */
  lemma EventsAtAre(s: State, f: Fact, turn: string)
    ensures EventsAt(s, f, turn) ==
            if Joined(s, f).Some? && Joined(s, f).value.0 == turn then TurnEvents(s, turn, Joined(s, f).value.1) else []
  {
    var a, b, c, d, e := JoinEvents(s, f), ThreadEvents(s, f), SteerEvents(s, f), ReviewEvents(s, f), ToolEvents(s, f);
    OtherSorts(s, f, turn);
    FilterFirst(a + b + c + d, e, turn);
    FilterFirst(a + b + c, d, turn);
    FilterFirst(a + b, c, turn);
    FilterFirst(a, b, turn);
    JoinEventsAre(s, f, turn);
  }

  lemma JoinEventsAre(s: State, f: Fact, turn: string)
    ensures Filter(JoinEvents(s, f), About(turn)) ==
            if Joined(s, f).Some? && Joined(s, f).value.0 == turn then TurnEvents(s, turn, Joined(s, f).value.1) else []
  {
  }

  // ----- the three facts of a turn

  /** A turn to come: its start request is pending, its connection and thread are known. */
  datatype Plan = Plan(
    turn: string, connection: nat, request: RequestId, context: Connection, metadata: Metadata, config: Config, done: Fact)

  predicate Sound(p: Plan) {
    p.done.TurnCompleted? && p.done.turn == p.turn
  }

  function StartOf(p: Plan): Fact {
    TurnStartResponse(p.connection, p.request, p.turn)
  }

  function ConfigOf(p: Plan): Fact {
    TurnResolvedConfig(p.turn, p.config)
  }

  predicate IsOneOf(f: Fact, p: Plan) {
    f == StartOf(p) || f == ConfigOf(p) || f == p.done
  }

  predicate MentionsTurn(f: Fact, turn: string) {
    match f
    case TurnStartResponse(_, _, t) => t == turn
    case TurnSteerResponse(_, _, t) => t == turn
    case ItemCompleted(_, t, _, _) => t == turn
    case TurnStarted(t, _) => t == turn
    case TurnDiffUpdated(_, t, _) => t == turn
    case TurnCompleted(t, _, _, _, _) => t == turn
    case TurnResolvedConfig(t, _) => t == turn
    case TurnTokenUsage(t, _, _) => t == turn
    case _ => false
  }

  predicate UsesRequest(f: Fact, c: nat, id: RequestId) {
    match f
    case TurnStartRequest(k, i, _, _) => k == c && i == id
    case TurnSteerRequest(k, i, _, _, _, _) => k == c && i == id
    case TurnStartResponse(k, i, _) => k == c && i == id
    case TurnSteerResponse(k, i, _) => k == c && i == id
    case ErrorResponse(k, i, _) => k == c && i == id
    case _ => false
  }

  /** A fact about other turns and requests, that leaves the plan's connection and thread as they are. */
  predicate Neutral(f: Fact, p: Plan) {
    && !MentionsTurn(f, p.turn) && !UsesRequest(f, p.connection, p.request)
    && !(f.Initialize? && f.connection == p.connection)
    && !(f.ThreadResponse? && f.thread == p.config.thread)
  }

  /** A fact about the turn that adds to what its event says: none of the three, and of the same thread. */
  predicate Detail(f: Fact, p: Plan) {
    match f
    case TurnStarted(t, _) => t == p.turn
    case TurnTokenUsage(t, thread, _) => t == p.turn && thread == p.config.thread
    case TurnDiffUpdated(thread, t, _) => t == p.turn && thread == p.config.thread
    case ItemCompleted(_, t, _, _) => t == p.turn
    case TurnSteerResponse(c, id, t) => t == p.turn && !(c == p.connection && id == p.request)
    case _ => false
  }

  /** Each of the three facts comes at most once, in any order, among neutral facts and details of the turn. */
  ghost predicate IsScript(facts: seq<Fact>, p: Plan) {
    && (forall i :: 0 <= i < |facts| ==> IsOneOf(facts[i], p) || Neutral(facts[i], p) || Detail(facts[i], p))
    && (forall i, j :: 0 <= i < j < |facts| && IsOneOf(facts[i], p) ==> facts[i] != facts[j])
  }

  predicate AllIn(facts: seq<Fact>, p: Plan) {
    StartOf(p) in facts && ConfigOf(p) in facts && p.done in facts
  }

  datatype Seen = Seen(start: bool, config: bool, done: bool)

  function SeenIn(facts: seq<Fact>, p: Plan): Seen {
    Seen(StartOf(p) in facts, ConfigOf(p) in facts, p.done in facts)
  }

  // ----- what the details of a turn amount to, one by one

  function LastStarted(facts: seq<Fact>, p: Plan): Option<nat> {
    if facts == [] then None
    else
      match facts[|facts| - 1]
      case TurnStarted(t, at) =>
        if t != p.turn then LastStarted(facts[..|facts| - 1], p)
        else if at.Some? && at.value >= 0 then Some(at.value) else None
      case _ => LastStarted(facts[..|facts| - 1], p)
  }

  function LastUsage(facts: seq<Fact>, p: Plan): Option<string> {
    if facts == [] then None
    else
      match facts[|facts| - 1]
      case TurnTokenUsage(t, _, usage) => if t == p.turn then Some(usage) else LastUsage(facts[..|facts| - 1], p)
      case _ => LastUsage(facts[..|facts| - 1], p)
  }

  function LastDiff(facts: seq<Fact>, p: Plan): Option<string> {
    if facts == [] then None
    else
      match facts[|facts| - 1]
      case TurnDiffUpdated(_, t, diff) => if t == p.turn then Some(diff) else LastDiff(facts[..|facts| - 1], p)
      case _ => LastDiff(facts[..|facts| - 1], p)
  }

  /** Whether a fact makes the turn known; finished items and steers do not. */
  predicate Introduces(f: Fact, p: Plan) {
    IsOneOf(f, p) || (Detail(f, p) && !f.ItemCompleted? && !f.TurnSteerResponse?)
  }

  predicate KnownIn(facts: seq<Fact>, p: Plan) {
    facts != [] && (Introduces(facts[|facts| - 1], p) || KnownIn(facts[..|facts| - 1], p))
  }

  /** The tool items of the turn that finished once it was known. */
  function ToolsIn(facts: seq<Fact>, p: Plan): ToolCounts {
    if facts == [] then NO_TOOLS
    else
      var init, f := facts[..|facts| - 1], facts[|facts| - 1];
      if f.ItemCompleted? && f.turn == p.turn && KnownIn(init, p) then Counted(ToolsIn(init, p), f.item) else ToolsIn(init, p)
  }

  predicate AcceptsSteer(requests: map<(nat, RequestId), PendingRequest>, f: Fact, turn: string) {
    f.TurnSteerResponse? && f.turn == turn && (f.connection, f.request) in requests && requests[(f.connection, f.request)].SteerPending?
  }

  /** The pending steers that the turn accepted once it was known. */
  function SteersIn(s: State, facts: seq<Fact>, p: Plan): nat {
    if facts == [] then 0
    else
      var init, f := facts[..|facts| - 1], facts[|facts| - 1];
      SteersIn(s, init, p) + if AcceptsSteer(RunFrom(s, init).requests, f, p.turn) && KnownIn(init, p) then 1 else 0
  }

  datatype Details = Details(
    known: bool, started: Option<nat>, usage: Option<string>, diff: Option<string>, steers: nat, tools: ToolCounts)

  const NOTHING := Details(false, None, None, None, 0, NO_TOOLS)

  function DetailsIn(s: State, facts: seq<Fact>, p: Plan): Details {
    Details(KnownIn(facts, p), LastStarted(facts, p), LastUsage(facts, p), LastDiff(facts, p), SteersIn(s, facts, p), ToolsIn(facts, p))
  }

  /** One more fact: what it adds to the details. */
  function Noting(d: Details, f: Fact, p: Plan, accepted: bool): Details {
    var known := d.known || Introduces(f, p);
    match f
    case TurnStarted(t, at) => if t == p.turn then d.(known := known, started := Unsigned(at)) else d.(known := known)
    case TurnTokenUsage(t, _, usage) => if t == p.turn then d.(known := known, usage := Some(usage)) else d.(known := known)
    case TurnDiffUpdated(_, t, diff) => if t == p.turn then d.(known := known, diff := Some(diff)) else d.(known := known)
    case TurnSteerResponse(_, _, _) => d.(known := known, steers := d.steers + if accepted && d.known then 1 else 0)
    case ItemCompleted(_, t, item, _) =>
      if t == p.turn && d.known then d.(known := known, tools := Counted(d.tools, item)) else d.(known := known)
    case _ => d.(known := known)
  }

  lemma LastStartedSnoc(init: seq<Fact>, f: Fact, p: Plan, facts: seq<Fact>)
    requires facts == init + [f]
    ensures LastStarted(facts, p) == if f.TurnStarted? && f.turn == p.turn then Unsigned(f.started) else LastStarted(init, p)
  {
    assert facts[..|facts| - 1] == init;
  }

  lemma LastUsageSnoc(init: seq<Fact>, f: Fact, p: Plan, facts: seq<Fact>)
    requires facts == init + [f]
    ensures LastUsage(facts, p) == if f.TurnTokenUsage? && f.turn == p.turn then Some(f.usage) else LastUsage(init, p)
  {
    assert facts[..|facts| - 1] == init;
  }

  lemma LastDiffSnoc(init: seq<Fact>, f: Fact, p: Plan, facts: seq<Fact>)
    requires facts == init + [f]
    ensures LastDiff(facts, p) == if f.TurnDiffUpdated? && f.turn == p.turn then Some(f.diff) else LastDiff(init, p)
  {
    assert facts[..|facts| - 1] == init;
  }

  lemma ToolsSnoc(init: seq<Fact>, f: Fact, p: Plan, facts: seq<Fact>)
    requires facts == init + [f]
    ensures KnownIn(facts, p) == (Introduces(f, p) || KnownIn(init, p))
    ensures ToolsIn(facts, p) ==
            if f.ItemCompleted? && f.turn == p.turn && KnownIn(init, p) then Counted(ToolsIn(init, p), f.item) else ToolsIn(init, p)
  {
    assert facts[..|facts| - 1] == init;
  }

  lemma SteersSnoc(s: State, init: seq<Fact>, f: Fact, p: Plan, facts: seq<Fact>)
    requires facts == init + [f]
    ensures SteersIn(s, facts, p) ==
            SteersIn(s, init, p) + if AcceptsSteer(RunFrom(s, init).requests, f, p.turn) && KnownIn(init, p) then 1 else 0
  {
    assert facts[..|facts| - 1] == init;
  }

  lemma DetailsSnoc(s: State, init: seq<Fact>, f: Fact, p: Plan)
    ensures DetailsIn(s, init + [f], p) ==
            Noting(DetailsIn(s, init, p), f, p, AcceptsSteer(RunFrom(s, init).requests, f, p.turn))
  {
    LastStartedSnoc(init, f, p, init + [f]);
    LastUsageSnoc(init, f, p, init + [f]);
    LastDiffSnoc(init, f, p, init + [f]);
    ToolsSnoc(init, f, p, init + [f]);
    SteersSnoc(s, init, f, p, init + [f]);
    NotedOneByOne(DetailsIn(s, init, p), DetailsIn(s, init + [f], p), f, p, AcceptsSteer(RunFrom(s, init).requests, f, p.turn));
  }

  lemma NotedOneByOne(d: Details, next: Details, f: Fact, p: Plan, accepted: bool)
    requires next.started == if f.TurnStarted? && f.turn == p.turn then Unsigned(f.started) else d.started
    requires next.usage == if f.TurnTokenUsage? && f.turn == p.turn then Some(f.usage) else d.usage
    requires next.diff == if f.TurnDiffUpdated? && f.turn == p.turn then Some(f.diff) else d.diff
    requires next.known == (Introduces(f, p) || d.known)
    requires next.tools == if f.ItemCompleted? && f.turn == p.turn && d.known then Counted(d.tools, f.item) else d.tools
    requires next.steers == d.steers + (if accepted && d.known then 1 else 0) && (accepted ==> f.TurnSteerResponse?)
    ensures next == Noting(d, f, p, accepted)
  {
  }

  // ----- the turn and its event

  /** The turn after some of the facts, in whatever order. */
  function Partial(p: Plan, seen: Seen, d: Details): Turn
    requires Sound(p)
  {
    Turn(
      if seen.start then Some(p.connection) else None,
      if seen.start || seen.config || d.usage.Some? || d.diff.Some? then Some(p.config.thread) else None,
      if seen.start || seen.config then Some(p.config.images) else None,
      if seen.config then Some(p.config) else None,
      d.started, d.usage,
      if seen.done then Some(CompletedOf(p.done.status, p.done.error, p.done.finished, p.done.durationMs)) else None,
      d.diff, d.steers, d.tools)
  }

  /** How the turn ended: in which status if it is none of progress, when if at a valid time, and after how long. */
  function Ending(p: Plan): Completed
    requires Sound(p)
  {
    var f := p.done;
    Completed(if f.status == TurnInProgress then None else Some(f.status), f.error,
              if f.finished.Some? && f.finished.value >= 0 then f.finished.value else 0,
              if f.durationMs.Some? && f.durationMs.value >= 0 then Some(f.durationMs.value) else None)
  }

  /** The event of the turn, and the accepted lines if its last diff has any. */
  function Report(p: Plan, d: Details): seq<TrackEvent>
    requires Sound(p)
  {
    [TurnDone(p.context, p.metadata, p.turn, p.config.thread, p.config.images, p.config, d.started, d.usage,
              Ending(p), d.steers, d.tools)]
    + AcceptedLinesOf(p.turn, Partial(p, Seen(true, true, true), d))
  }

  /** The facts before the last of the three. */
  function BeforeLast(facts: seq<Fact>, p: Plan): seq<Fact>
    requires AllIn(facts, p)
  {
    var init := facts[..|facts| - 1];
    if AllIn(init, p) then BeforeLast(init, p) else init
  }

  predicate Known(s: State, p: Plan) {
    Get(s.connections, p.connection) == Some(p.context) && ThreadMetadata(s, p.config.thread) == Some(p.metadata)
  }

  predicate Progress(s: State, p: Plan, seen: Seen, d: Details)
    requires Sound(p)
  {
    && Known(s, p) && (seen.start || seen.config || seen.done ==> d.known) && (!d.known ==> d == NOTHING)
    && Get(s.turns, p.turn) == (if d.known then Some(Partial(p, seen, d)) else None)
    && (!seen.start ==> Get(s.requests, (p.connection, p.request)) == Some(StartPending(p.config.thread, p.config.images)))
  }

  /** Before the first of its facts: nothing is known of the turn but its request, its connection and its thread. */
  predicate Planned(s: State, p: Plan) {
    && Known(s, p) && p.turn !in s.turns
    && Get(s.requests, (p.connection, p.request)) == Some(StartPending(p.config.thread, p.config.images))
  }

  lemma NeutralKnown(s: State, f: Fact, p: Plan)
    requires Known(s, p) && Neutral(f, p)
    ensures Known(Next(s, f), p)
  {
  }

  lemma NeutralTurn(s: State, f: Fact, p: Plan)
    requires Neutral(f, p)
    ensures Get(Next(s, f).turns, p.turn) == Get(s.turns, p.turn)
  {
    NeutralJoin(s, f, p);
    assert Next(s, f).turns == NextTurns(s, f);
  }

  lemma NeutralJoin(s: State, f: Fact, p: Plan)
    requires Neutral(f, p)
    ensures Joined(s, f).Some? ==> Joined(s, f).value.0 != p.turn
  {
  }

  lemma NeutralEvents(s: State, f: Fact, p: Plan)
    requires Neutral(f, p)
    ensures EventsAt(s, f, p.turn) == []
  {
    NeutralJoin(s, f, p);
    EventsAtAre(s, f, p.turn);
  }

  lemma NeutralRequest(s: State, f: Fact, p: Plan)
    requires Neutral(f, p)
    ensures Get(Next(s, f).requests, (p.connection, p.request)) == Get(s.requests, (p.connection, p.request))
  {
    assert Next(s, f).requests == NextRequests(s, f);
  }

  lemma NeutralNotes(d: Details, f: Fact, p: Plan, requests: map<(nat, RequestId), PendingRequest>)
    requires Neutral(f, p) && !IsOneOf(f, p)
    ensures Noting(d, f, p, AcceptsSteer(requests, f, p.turn)) == d
  {
  }

  function With(seen: Seen, f: Fact, p: Plan): Seen {
    Seen(seen.start || f == StartOf(p), seen.config || f == ConfigOf(p), seen.done || f == p.done)
  }

  predicate All(seen: Seen) {
    seen.start && seen.config && seen.done
  }

  predicate IsNew(seen: Seen, f: Fact, p: Plan) {
    (f == StartOf(p) && !seen.start) || (f == ConfigOf(p) && !seen.config) || (f == p.done && !seen.done)
  }

  /** Each of the three brings the turn forward in the same way, whatever came before. */
  lemma ArrivalJoins(s: State, f: Fact, p: Plan, seen: Seen, d: Details)
    requires Sound(p) && Progress(s, p, seen, d) && IsNew(seen, f, p)
    ensures Joined(s, f) == Some((p.turn, Partial(p, With(seen, f, p), d)))
  {
  }

  lemma ArrivalNotes(d: Details, f: Fact, p: Plan, seen: Seen)
    requires Sound(p) && IsNew(seen, f, p)
    ensures Noting(d, f, p, false) == d.(known := true) && !f.TurnSteerResponse?
  {
  }

  lemma PartialReady(s: State, p: Plan, seen: Seen, d: Details)
    requires Sound(p) && Known(s, p)
    ensures Ready(s, Partial(p, seen, d)) == if All(seen) then Some((p.context, p.metadata)) else None
    ensures TurnEvents(s, p.turn, Partial(p, seen, d)) == if All(seen) then Report(p, d) else []
  {
  }

  lemma ArrivalStep(s: State, f: Fact, p: Plan, seen: Seen, d: Details)
    requires Sound(p) && Progress(s, p, seen, d) && IsNew(seen, f, p)
    ensures EventsAt(s, f, p.turn) == if All(With(seen, f, p)) then Report(p, d) else []
    ensures Get(Next(s, f).turns, p.turn) == if All(With(seen, f, p)) then None else Some(Partial(p, With(seen, f, p), d))
  {
    ArrivalJoins(s, f, p, seen, d);
    PartialReady(s, p, With(seen, f, p), d);
    EventsAtAre(s, f, p.turn);
    assert Next(s, f).turns == NextTurns(s, f);
  }

  lemma ArrivalKeepsRest(s: State, f: Fact, p: Plan, seen: Seen, d: Details)
    requires Sound(p) && Progress(s, p, seen, d) && IsNew(seen, f, p)
    ensures Known(Next(s, f), p)
    ensures !With(seen, f, p).start ==>
              Get(Next(s, f).requests, (p.connection, p.request)) == Some(StartPending(p.config.thread, p.config.images))
  {
    assert Next(s, f).connections == s.connections && Next(s, f).threads == s.threads;
    assert Next(s, f).requests == NextRequests(s, f);
  }

  // ----- details

  lemma DetailTurn(s: State, f: Fact, p: Plan, seen: Seen, d: Details)
    requires Sound(p) && Progress(s, p, seen, d) && !All(seen) && Detail(f, p)
    ensures var next := Noting(d, f, p, AcceptsSteer(s.requests, f, p.turn));
            && Get(Next(s, f).turns, p.turn) == (if next.known then Some(Partial(p, seen, next)) else None)
            && (d.known ==> next.known) && (!next.known ==> next == NOTHING)
  {
    assert Next(s, f).turns == NextTurns(s, f);
    if f.TurnTokenUsage? {
      var next := Noting(d, f, p, false);
      PartialReady(s, p, seen, next);
      assert Joined(s, f) == Some((p.turn, Partial(p, seen, next)));
    }
  }

  /** No turn that lacks its config is reported. */
  lemma DetailEvents(s: State, f: Fact, p: Plan)
    requires Detail(f, p) && (p.turn in s.turns ==> Ready(s, s.turns[p.turn].(thread := Some(p.config.thread))).None?)
    ensures EventsAt(s, f, p.turn) == []
  {
    EventsAtAre(s, f, p.turn);
  }

  lemma DetailKeepsRest(s: State, f: Fact, p: Plan)
    requires Known(s, p) && Detail(f, p)
    ensures Known(Next(s, f), p)
    ensures Get(Next(s, f).requests, (p.connection, p.request)) == Get(s.requests, (p.connection, p.request))
  {
    assert Next(s, f).connections == s.connections && Next(s, f).threads == s.threads;
    assert Next(s, f).requests == NextRequests(s, f);
  }

  lemma DetailStep(s: State, f: Fact, p: Plan, seen: Seen, d: Details)
    requires Sound(p) && Progress(s, p, seen, d) && !All(seen) && Detail(f, p)
    ensures EventsAt(s, f, p.turn) == []
    ensures Progress(Next(s, f), p, seen, Noting(d, f, p, AcceptsSteer(s.requests, f, p.turn)))
  {
    DetailTurn(s, f, p, seen, d);
    DetailKeepsRest(s, f, p);
    DetailEvents(s, f, p);
  }

  // ----- any order

  /** A turn that has been reported may be known again, but not its config. */
  predicate Reported(s: State, p: Plan) {
    p.turn in s.turns ==> s.turns[p.turn].config.None?
  }

  lemma DetailAfterwards(s: State, f: Fact, p: Plan)
    requires Reported(s, p) && Detail(f, p)
    ensures Reported(Next(s, f), p) && EventsAt(s, f, p.turn) == []
  {
    assert Next(s, f).turns == NextTurns(s, f);
    DetailEvents(s, f, p);
  }

  /** Where a script from `s0` stands: on its way, or past the turn's event. */
  predicate Stands(s0: State, s: State, p: Plan, facts: seq<Fact>)
    requires Sound(p)
  {
    if AllIn(facts, p) then Reported(s, p) else Progress(s, p, SeenIn(facts, p), DetailsIn(s0, facts, p))
  }

  lemma ScriptPrefix(facts: seq<Fact>, p: Plan)
    requires IsScript(facts, p) && facts != []
    ensures IsScript(facts[..|facts| - 1], p)
  {
  }

  lemma SeenSnoc(facts: seq<Fact>, f: Fact, p: Plan)
    ensures SeenIn(facts + [f], p) == With(SeenIn(facts, p), f, p)
    ensures AllIn(facts, p) <==> All(SeenIn(facts, p))
    ensures AllIn(facts + [f], p) <==> All(With(SeenIn(facts, p), f, p))
  {
  }

  lemma LastIsNew(init: seq<Fact>, f: Fact, p: Plan)
    requires IsScript(init + [f], p) && IsOneOf(f, p)
    ensures IsNew(SeenIn(init, p), f, p)
  {
    forall i | 0 <= i < |init|
      ensures init[i] != f
    {
      assert (init + [f])[i] == init[i] && (init + [f])[|init|] == f;
    }
  }

  lemma LastIsOther(init: seq<Fact>, f: Fact, p: Plan)
    requires IsScript(init + [f], p) && !IsOneOf(f, p)
    ensures Neutral(f, p) || Detail(f, p)
    ensures SeenIn(init + [f], p) == SeenIn(init, p)
  {
    assert (init + [f])[|init|] == f;
    SeenSnoc(init, f, p);
  }

  lemma Snoc(facts: seq<Fact>)
    requires facts != []
    ensures facts == facts[..|facts| - 1] + [facts[|facts| - 1]]
  {
  }

  lemma NeutralScriptStep(s0: State, s: State, init: seq<Fact>, f: Fact, p: Plan)
    requires Sound(p) && s == RunFrom(s0, init) && Stands(s0, s, p, init) && Neutral(f, p) && !IsOneOf(f, p)
    requires SeenIn(init + [f], p) == SeenIn(init, p)
    ensures Stands(s0, Next(s, f), p, init + [f]) && EventsAt(s, f, p.turn) == []
  {
    NeutralTurn(s, f, p);
    NeutralEvents(s, f, p);
    if !AllIn(init, p) {
      DetailsSnoc(s0, init, f, p);
      NeutralNotes(DetailsIn(s0, init, p), f, p, s.requests);
      NeutralKnown(s, f, p);
      NeutralRequest(s, f, p);
    }
  }

  lemma DetailScriptStep(s0: State, s: State, init: seq<Fact>, f: Fact, p: Plan)
    requires Sound(p) && s == RunFrom(s0, init) && Stands(s0, s, p, init) && Detail(f, p)
    requires SeenIn(init + [f], p) == SeenIn(init, p)
    ensures Stands(s0, Next(s, f), p, init + [f]) && EventsAt(s, f, p.turn) == []
  {
    SeenSnoc(init, f, p);
    if AllIn(init, p) {
      DetailAfterwards(s, f, p);
    } else {
      DetailsSnoc(s0, init, f, p);
      DetailStep(s, f, p, SeenIn(init, p), DetailsIn(s0, init, p));
    }
  }

  lemma ArrivalScriptStep(s0: State, s: State, init: seq<Fact>, f: Fact, p: Plan)
    requires Sound(p) && s == RunFrom(s0, init) && Stands(s0, s, p, init) && IsNew(SeenIn(init, p), f, p)
    ensures Stands(s0, Next(s, f), p, init + [f])
    ensures EventsAt(s, f, p.turn) == if AllIn(init + [f], p) then Report(p, DetailsIn(s0, init, p)) else []
    ensures !AllIn(init, p)
  {
    var seen, d := SeenIn(init, p), DetailsIn(s0, init, p);
    SeenSnoc(init, f, p);
    ArrivalStep(s, f, p, seen, d);
    ArrivalKeepsRest(s, f, p, seen, d);
    DetailsSnoc(s0, init, f, p);
    ArrivalNotes(d, f, p, seen);
    assert Partial(p, With(seen, f, p), d.(known := true)) == Partial(p, With(seen, f, p), d);
  }

  lemma ScriptStep(s0: State, s: State, init: seq<Fact>, f: Fact, p: Plan)
    requires Sound(p) && s == RunFrom(s0, init) && Stands(s0, s, p, init) && IsScript(init + [f], p)
    ensures Stands(s0, Next(s, f), p, init + [f])
    ensures EventsAt(s, f, p.turn) ==
            if AllIn(init + [f], p) && !AllIn(init, p) then Report(p, DetailsIn(s0, init, p)) else []
  {
    if IsOneOf(f, p) {
      LastIsNew(init, f, p);
      ArrivalScriptStep(s0, s, init, f, p);
    } else {
      LastIsOther(init, f, p);
      if Detail(f, p) {
        DetailScriptStep(s0, s, init, f, p);
      } else {
        NeutralScriptStep(s0, s, init, f, p);
      }
    }
  }

  lemma {:induction false} ScriptStands(s: State, facts: seq<Fact>, p: Plan)
    requires Sound(p) && Planned(s, p) && IsScript(facts, p)
    ensures Stands(s, RunFrom(s, facts), p, facts)
  {
    if facts != [] {
      var init, f := facts[..|facts| - 1], facts[|facts| - 1];
      ScriptPrefix(facts, p);
      ScriptStands(s, init, p);
      Snoc(facts);
      ScriptStep(s, RunFrom(s, init), init, f, p);
    }
  }

  /** The event comes with the last of the three facts, and with no other fact. */
  lemma EventComesLast(s: State, init: seq<Fact>, f: Fact, p: Plan)
    requires Sound(p) && Planned(s, p) && IsScript(init + [f], p)
    ensures EventsAt(RunFrom(s, init), f, p.turn) ==
            if AllIn(init + [f], p) && !AllIn(init, p) then Report(p, DetailsIn(s, init, p)) else []
  {
    ScriptPrefix(init + [f], p);
    assert (init + [f])[..|init|] == init;
    ScriptStands(s, init, p);
    ScriptStep(s, RunFrom(s, init), init, f, p);
  }

  /**
   * In whatever order the three facts of a turn arrive, and whatever neutral facts and details of the turn come
   * between and behind them, exactly one event about the turn is sent. It carries the last start time and usage and
   * the items and steers counted before the last of the three, and the accepted lines of the last diff follow it.
   */
  lemma {:induction false} TurnEventJoins(s: State, facts: seq<Fact>, p: Plan)
    requires Sound(p) && Planned(s, p) && IsScript(facts, p)
    ensures EventsOf(s, facts, p.turn) == if AllIn(facts, p) then Report(p, DetailsIn(s, BeforeLast(facts, p), p)) else []
  {
    if facts != [] {
      var init, f := facts[..|facts| - 1], facts[|facts| - 1];
      Snoc(facts);
      ScriptPrefix(facts, p);
      TurnEventJoins(s, init, p);
      EventComesLast(s, init, f, p);
      EventsOfSnoc(s, init, f, p.turn);
      AllInGrows(init, f, p);
    }
  }

  ghost predicate Bare(facts: seq<Fact>, p: Plan) {
    forall i :: 0 <= i < |facts| ==> !Detail(facts[i], p)
  }

  lemma NothingNoted(d: Details, f: Fact, p: Plan, accepted: bool)
    requires Sound(p) && (IsOneOf(f, p) || Neutral(f, p)) && (accepted ==> f.TurnSteerResponse? && f.turn == p.turn)
    requires d == NOTHING.(known := d.known)
    ensures Noting(d, f, p, accepted) == NOTHING.(known := d.known || Introduces(f, p))
  {
  }

  lemma {:induction false} NoDetails(s: State, facts: seq<Fact>, p: Plan)
    requires Sound(p) && IsScript(facts, p) && Bare(facts, p)
    ensures DetailsIn(s, facts, p) == NOTHING.(known := KnownIn(facts, p))
  {
    if facts != [] {
      var init, f := facts[..|facts| - 1], facts[|facts| - 1];
      ScriptPrefix(facts, p);
      NoDetails(s, init, p);
      Snoc(facts);
      DetailsSnoc(s, init, f, p);
      assert IsOneOf(f, p) || Neutral(f, p);
      NothingNoted(DetailsIn(s, init, p), f, p, AcceptsSteer(RunFrom(s, init).requests, f, p.turn));
    }
  }

  lemma {:induction false} BareReport(s: State, facts: seq<Fact>, p: Plan)
    requires Sound(p) && IsScript(facts, p) && Bare(facts, p) && AllIn(facts, p)
    ensures Report(p, DetailsIn(s, BeforeLast(facts, p), p)) == Report(p, NOTHING)
  {
    var init := facts[..|facts| - 1];
    ScriptPrefix(facts, p);
    if AllIn(init, p) {
      BareReport(s, init, p);
    } else {
      NoDetails(s, init, p);
    }
  }

  /** Without details the event is the same in every order and among any neutral facts. */
  lemma OrderIsIrrelevant(s: State, a: seq<Fact>, b: seq<Fact>, p: Plan)
    requires Sound(p) && Planned(s, p) && IsScript(a, p) && IsScript(b, p) && Bare(a, p) && Bare(b, p) && AllIn(a, p) && AllIn(b, p)
    ensures EventsOf(s, a, p.turn) == EventsOf(s, b, p.turn) && |EventsOf(s, a, p.turn)| == 1
  {
    TurnEventJoins(s, a, p);
    TurnEventJoins(s, b, p);
    BareReport(s, a, p);
    BareReport(s, b, p);
  }

  lemma EventsOfSnoc(s: State, init: seq<Fact>, f: Fact, turn: string)
    ensures EventsOf(s, init + [f], turn) == EventsOf(s, init, turn) + EventsAt(RunFrom(s, init), f, turn)
  {
    assert (init + [f])[..|init|] == init;
  }

  lemma AllInGrows(init: seq<Fact>, f: Fact, p: Plan)
    ensures AllIn(init, p) ==> AllIn(init + [f], p)
  {
  }

  // ----- freshness

  predicate IsConfigFor(f: Fact, turn: string) {
    f.TurnResolvedConfig? && f.turn == turn
  }

  predicate IsCompletionOf(f: Fact, turn: string) {
    f.TurnCompleted? && f.turn == turn
  }

  predicate IsStartOf(f: Fact, turn: string) {
    f.TurnStartResponse? && f.turn == turn
  }

  function ConfigFor(turn: string): Fact -> bool {
    (f: Fact) => IsConfigFor(f, turn)
  }

  function CompletionOf(turn: string): Fact -> bool {
    (f: Fact) => IsCompletionOf(f, turn)
  }

  function StartFor(turn: string): Fact -> bool {
    (f: Fact) => IsStartOf(f, turn)
  }

  predicate Any(facts: seq<Fact>, which: Fact -> bool) {
    facts != [] && (which(facts[|facts| - 1]) || Any(facts[..|facts| - 1], which))
  }

  lemma AnySnoc(facts: seq<Fact>, f: Fact, which: Fact -> bool)
    ensures Any(facts + [f], which) <==> Any(facts, which) || which(f)
  {
  }

  /** What a turn's state holds has arrived since the turn was last absent. */
  predicate IsFresh(t: Turn, facts: seq<Fact>, turn: string) {
    && (t.config.Some? ==> Any(facts, ConfigFor(turn)))
    && (t.completed.Some? ==> Any(facts, CompletionOf(turn)))
    && (t.connection.Some? ==> Any(facts, StartFor(turn)))
  }

  lemma JoinedIsFresh(s: State, facts: seq<Fact>, f: Fact, turn: string)
    requires turn in s.turns ==> IsFresh(s.turns[turn], facts, turn)
    requires Joined(s, f).Some? && Joined(s, f).value.0 == turn
    ensures IsFresh(Joined(s, f).value.1, facts + [f], turn)
  {
  }

  lemma FreshStep(s: State, facts: seq<Fact>, f: Fact, turn: string)
    requires turn in s.turns ==> IsFresh(s.turns[turn], facts, turn)
    ensures turn in Next(s, f).turns ==> IsFresh(Next(s, f).turns[turn], facts + [f], turn)
  {
    assert Next(s, f).turns == NextTurns(s, f);
    if Joined(s, f).Some? && Joined(s, f).value.0 == turn {
      JoinedIsFresh(s, facts, f, turn);
    } else {
      AnySnoc(facts, f, ConfigFor(turn));
      AnySnoc(facts, f, CompletionOf(turn));
      AnySnoc(facts, f, StartFor(turn));
    }
  }

  lemma {:induction false} FreshSince(s: State, facts: seq<Fact>, turn: string)
    requires turn !in s.turns
    ensures turn in RunFrom(s, facts).turns ==> IsFresh(RunFrom(s, facts).turns[turn], facts, turn)
  {
    if facts != [] {
      var init, f := facts[..|facts| - 1], facts[|facts| - 1];
      FreshSince(s, init, turn);
      FreshStep(RunFrom(s, init), init, f, turn);
      Snoc(facts);
    }
  }

  /** Between two events about a turn there is a new config, a new completion and a new start of it. */
  lemma BetweenTwoEvents(s: State, first: Fact, facts: seq<Fact>, last: Fact, turn: string)
    requires EventsAt(s, first, turn) != []
    requires EventsAt(RunFrom(Next(s, first), facts), last, turn) != []
    ensures Any(facts + [last], ConfigFor(turn)) && Any(facts + [last], CompletionOf(turn)) && Any(facts + [last], StartFor(turn))
  {
    var before := Next(s, first);
    var now := RunFrom(before, facts);
    EventsAtAre(s, first, turn);
    assert before.turns == NextTurns(s, first);
    FreshSince(before, facts, turn);
    EventsAtAre(now, last, turn);
    JoinedIsFresh(now, facts, last, turn);
  }
}
