/** The facts that the analytics reducer takes in, its seven tables, and how each fact changes each of them. */
module Analytics {
  import opened Wrappers
  import Diff
  import Protocol
  import Text

  type RequestId = Protocol.RequestId

  // ----- connections and threads

  datatype Connection = Connection(client: string, runtime: string)

  datatype Mode = New | Forked | Resumed

  datatype Metadata = Metadata(source: Option<string>, mode: Mode, subagent: Option<string>, parent: Option<string>)

  datatype Thread = Thread(connection: Option<nat>, metadata: Option<Metadata>)

  /** The kind of subagent a session belongs to, and the thread that spawned it if the kind names one. */
  datatype Subagent = Subagent(name: string, parent: Option<string>)

  // ----- turns and their requests

  datatype PendingRequest =
    | StartPending(thread: string, images: nat)
    | SteerPending(thread: string, expected: string, images: nat, createdAt: nat)

  datatype Config = Config(thread: string, images: nat, model: string, settings: string)

  datatype TurnStatus = TurnInProgress | TurnFinished | TurnFailed | TurnInterrupted

  datatype Completed = Completed(status: Option<TurnStatus>, error: Option<string>, at: nat, duration: Option<nat>)

  datatype ToolCounts = ToolCounts(
    total: nat, shell: nat, file: nat, mcp: nat, dynamic: nat, subagent: nat, web: nat, image: nat)

  datatype Turn = Turn(
    connection: Option<nat>, thread: Option<string>, images: Option<nat>, config: Option<Config>,
    startedAt: Option<nat>, tokens: Option<string>, completed: Option<Completed>, diff: Option<string>,
    steers: nat, tools: ToolCounts)

  const NO_TOOLS := ToolCounts(0, 0, 0, 0, 0, 0, 0, 0)
  const NEW_TURN := Turn(None, None, None, None, None, None, None, None, 0, NO_TOOLS)

  // ----- tool items

  datatype ToolStatus = ToolInProgress | ToolCompleted | ToolFailed | ToolDeclined

  datatype Item =
    | CommandExecution(id: string, status: ToolStatus)
    | FileChange(id: string, status: ToolStatus)
    | McpToolCall(id: string, status: ToolStatus)
    | DynamicToolCall(id: string, status: ToolStatus)
    | CollabAgentToolCall(id: string, status: ToolStatus)
    | WebSearch(id: string)
    | ImageGeneration(id: string, outcome: string)
    | Untracked

  datatype Key = Key(thread: string, turn: string, item: string)

  datatype Terminal = Succeeded | Broken | Rejected

  /** How a tool item ended; a status of progress is no end. */
  function TerminalOf(item: Item): Option<Terminal> {
    match item
    case WebSearch(_) => Some(Succeeded)
    case ImageGeneration(_, outcome) => Some(if outcome == "failed" || outcome == "error" then Broken else Succeeded)
    case Untracked => None
    case _ =>
      match item.status
      case ToolInProgress => None
      case ToolCompleted => Some(Succeeded)
      case ToolFailed => Some(Broken)
      case ToolDeclined => Some(Rejected)
  }

  /** `TurnToolCounts::record`. */
  function Counted(c: ToolCounts, item: Item): ToolCounts {
    match item
    case CommandExecution(_, _) => c.(shell := c.shell + 1, total := c.total + 1)
    case FileChange(_, _) => c.(file := c.file + 1, total := c.total + 1)
    case McpToolCall(_, _) => c.(mcp := c.mcp + 1, total := c.total + 1)
    case DynamicToolCall(_, _) => c.(dynamic := c.dynamic + 1, total := c.total + 1)
    case CollabAgentToolCall(_, _) => c.(subagent := c.subagent + 1, total := c.total + 1)
    case WebSearch(_) => c.(web := c.web + 1, total := c.total + 1)
    case ImageGeneration(_, _) => c.(image := c.image + 1, total := c.total + 1)
    case Untracked => c
  }

  // ----- reviews

  datatype Subject = OnCommand | OnFileChange | OnMcpToolCall | OnPermissions | OnNetworkAccess

  datatype Trigger = Initial | SandboxDenial | NetworkPolicyDenial | ExecveIntercept

  datatype Reviewer = Guardian | User

  datatype Status = Approved | Denied | Aborted | TimedOut

  datatype Resolution = Unresolved | SessionApproval | ExecPolicyAmendment | NetworkPolicyAmendment

  datatype Approval = GuardianApproved | GuardianDenied | GuardianAborted
    | UserApprovedForSession | UserApproved | UserDenied | UserAborted | Unknown

  datatype ReviewId = ByUser(request: RequestId) | ByGuardian(id: string)

  datatype Review = Review(
    thread: string, turn: string, item: Option<string>, id: ReviewId, subject: Subject, name: string,
    trigger: Trigger, startedAt: nat, additional: bool, network: bool)

  datatype Summary = Summary(
    reviews: nat, guardian: nat, user: nat, last: Option<Approval>, additional: bool, network: bool)

  const NO_REVIEWS := Summary(0, 0, 0, None, false, false)

  /** A review that has come to its end. */
  datatype Conclusion = Conclusion(review: Review, reviewer: Reviewer, status: Status, resolution: Resolution, at: nat)

  /** `final_approval_outcome`. */
  function ApprovalOf(c: Conclusion): Approval {
    match (c.reviewer, c.status, c.resolution)
    case (Guardian, Approved, _) => GuardianApproved
    case (Guardian, Denied, _) => GuardianDenied
    case (Guardian, _, _) => GuardianAborted
    case (User, Approved, SessionApproval) => UserApprovedForSession
    case (User, Approved, _) => UserApproved
    case (User, Denied, _) => UserDenied
    case (User, _, _) => UserAborted
  }

  /** `item_review_summary_key`: only command, file and MCP reviews count for an item. */
  function SummaryKey(review: Review): Option<Key> {
    if review.subject.OnPermissions? || review.subject.OnNetworkAccess? || review.item.None? then None
    else Some(Key(review.thread, review.turn, review.item.value))
  }

  /** `record_item_review_summary` on one summary. */
  function Noted(s: Summary, c: Conclusion): Summary {
    Summary(s.reviews + 1,
            if c.reviewer.Guardian? then s.guardian + 1 else s.guardian,
            if c.reviewer.User? then s.user + 1 else s.user,
            Some(ApprovalOf(c)),
            s.additional || c.review.additional,
            s.network || c.review.network)
  }

  // ----- facts

  datatype CommandDecision = Accept | AcceptForSession | AcceptWithAmendment | AmendNetworkPolicy(allow: bool) | Decline | Cancel

  datatype FileDecision = AcceptFile | AcceptFileForSession | DeclineFile | CancelFile

  datatype GuardianStatus = GuardianInProgress | GuardianApproves | GuardianDenies | GuardianTimesOut | GuardianAborts

  datatype Action = RunCommand | RunExecve | ApplyPatch | UseNetwork | AskPermissions(network: bool, files: bool) | CallMcpTool(tool: string)

  datatype Fact =
    | Initialize(connection: nat, client: string, runtime: string)
    | TurnStartRequest(connection: nat, request: RequestId, thread: string, images: nat)
    | TurnSteerRequest(connection: nat, request: RequestId, thread: string, expected: string, images: nat, createdAt: nat)
    | ThreadResponse(connection: nat, thread: string, mode: Mode, source: Option<string>, subagent: Option<Subagent>, model: string)
    | TurnStartResponse(connection: nat, request: RequestId, turn: string)
    | TurnSteerResponse(connection: nat, request: RequestId, turn: string)
    | ErrorResponse(connection: nat, request: RequestId, reason: Option<string>)
    | ItemStarted(thread: string, turn: string, item: Item, atMs: int)
    | ItemCompleted(thread: string, turn: string, item: Item, atMs: int)
    | GuardianReviewCompleted(thread: string, turn: string, target: Option<string>, review: string,
                              verdict: GuardianStatus, action: Action, startedMs: int, completedMs: int)
    | TurnStarted(turn: string, started: Option<int>)
    | TurnDiffUpdated(thread: string, turn: string, diff: string)
    | TurnCompleted(turn: string, status: TurnStatus, error: Option<string>, finished: Option<int>, durationMs: Option<int>)
    | CommandApproval(request: RequestId, thread: string, turn: string, targetItem: string, networkContext: bool,
                      amendments: bool, permissions: Option<bool>, approvalId: bool, startedMs: int)
    | FileChangeApproval(request: RequestId, thread: string, turn: string, targetItem: string, grantRoot: bool, startedMs: int)
    | PermissionsApproval(request: RequestId, thread: string, turn: string, targetItem: string, network: bool, files: bool, startedMs: int)
    | CommandDecided(at: nat, request: RequestId, command: CommandDecision)
    | FileChangeDecided(at: nat, request: RequestId, file: FileDecision)
    | PermissionsGranted(at: nat, request: RequestId, nothing: bool, session: bool)
    | ServerRequestAborted(at: nat, request: RequestId)
    | SubagentThreadStarted(thread: string, parent: Option<string>, spawned: Subagent)
    | CompactionDone(thread: string, turn: string)
    | GuardianReviewed(thread: string, turn: string, review: string)
    | TurnResolvedConfig(turn: string, config: Config)
    | TurnTokenUsage(turn: string, thread: string, usage: string)

  function ToUnsigned(n: int): Option<nat> {
    if n >= 0 then Some(n) else None
  }

  function Unsigned(n: Option<int>): Option<nat> {
    if n.Some? then ToUnsigned(n.value) else None
  }

  // ----- events

  datatype TrackEvent =
    | ThreadInitialized(thread: string, context: Option<Connection>, metadata: Metadata, model: string)
    | GuardianReview(connection: Connection, thread: string, turn: string, review: string)
    | Compaction(connection: Connection, metadata: Metadata, thread: string, turn: string)
    | TurnSteer(connection: Connection, metadata: Metadata, thread: string, expected: string, accepted: Option<string>,
                images: nat, reason: Option<string>, createdAt: nat)
    | ReviewDone(connection: Connection, metadata: Metadata, conclusion: Conclusion)
    | ToolItem(connection: Connection, metadata: Metadata, key: Key, item: Item, end: Terminal, startedMs: nat, completedMs: nat, summary: Summary)
    | TurnDone(connection: Connection, metadata: Metadata, turn: string, thread: string, images: nat, config: Config,
               startedAt: Option<nat>, tokens: Option<string>, completed: Completed, steers: nat, tools: ToolCounts)
    | AcceptedLines(turn: string, thread: string, model: string, added: nat, deleted: nat)

  // ----- the state

  datatype State = State(
    requests: map<(nat, RequestId), PendingRequest>,
    turns: map<string, Turn>,
    connections: map<nat, Connection>,
    threads: map<string, Thread>,
    started: map<Key, nat>,
    reviews: map<RequestId, Review>,
    summaries: map<Key, Summary>)

  const INITIAL := State(map[], map[], map[], map[], map[], map[], map[])

  function ThreadMetadata(s: State, thread: string): Option<Metadata> {
    if thread in s.threads then s.threads[thread].metadata else None
  }

  /** `thread_connection_or_warn`. */
  function ThreadConnection(s: State, thread: string): Option<Connection> {
    if thread in s.threads && s.threads[thread].connection.Some?
    then Get(s.connections, s.threads[thread].connection.value)
    else None
  }

  // ----- how a fact changes the tables

  function NextConnections(s: State, f: Fact): map<nat, Connection> {
    match f
    case Initialize(c, client, runtime) => s.connections[c := Connection(client, runtime)]
    case _ => s.connections
  }

  function MetadataOf(mode: Mode, source: Option<string>, subagent: Option<Subagent>): Metadata {
    match subagent
    case None => Metadata(source, mode, None, None)
    case Some(a) => Metadata(source, mode, Some(a.name), a.parent)
  }

  function ParentOf(parent: Option<string>, spawned: Subagent): Option<string> {
    if parent.Some? then parent else spawned.parent
  }

  function SubagentMetadata(parent: Option<string>, spawned: Subagent): Metadata {
    Metadata(Some("subagent"), New, Some(spawned.name), ParentOf(parent, spawned))
  }

  function InheritedConnection(s: State, parent: Option<string>): Option<nat> {
    if parent.Some? && parent.value in s.threads then s.threads[parent.value].connection else None
  }

  function NextThreads(s: State, f: Fact): map<string, Thread> {
    match f
    case ThreadResponse(c, thread, mode, source, subagent, _) =>
      if c in s.connections then s.threads[thread := Thread(Some(c), Some(MetadataOf(mode, source, subagent)))]
      else s.threads
    case SubagentThreadStarted(thread, parent, spawned) =>
      var was := if thread in s.threads then s.threads[thread] else Thread(None, None);
      s.threads[thread := Thread(
        if was.connection.Some? then was.connection else InheritedConnection(s, ParentOf(parent, spawned)),
        if was.metadata.Some? then was.metadata else Some(SubagentMetadata(parent, spawned)))]
    case _ => s.threads
  }

  function NextRequests(s: State, f: Fact): map<(nat, RequestId), PendingRequest> {
    match f
    case TurnStartRequest(c, id, thread, images) => s.requests[(c, id) := StartPending(thread, images)]
    case TurnSteerRequest(c, id, thread, expected, images, at) => s.requests[(c, id) := SteerPending(thread, expected, images, at)]
    case TurnStartResponse(c, id, _) => s.requests - {(c, id)}
    case TurnSteerResponse(c, id, _) => s.requests - {(c, id)}
    case ErrorResponse(c, id, _) => s.requests - {(c, id)}
    case _ => s.requests
  }

  function TurnAt(s: State, turn: string): Turn {
    if turn in s.turns then s.turns[turn] else NEW_TURN
  }

  function CompletedOf(status: TurnStatus, error: Option<string>, finished: Option<int>, duration: Option<int>): Completed {
    Completed(
      if status.TurnInProgress? then None else Some(status), error,
      if Unsigned(finished).Some? then Unsigned(finished).value else 0,
      Unsigned(duration))
  }

  /** The turn that a fact updates and then checks for completeness. */
  function Joined(s: State, f: Fact): Option<(string, Turn)> {
    match f
    case TurnResolvedConfig(turn, config) =>
      Some((turn, TurnAt(s, turn).(thread := Some(config.thread), images := Some(config.images), config := Some(config))))
    case TurnTokenUsage(turn, thread, usage) =>
      Some((turn, TurnAt(s, turn).(thread := Some(thread), tokens := Some(usage))))
    case TurnStartResponse(c, id, turn) =>
      if (c, id) in s.requests && s.requests[(c, id)].StartPending? then
        var p := s.requests[(c, id)];
        Some((turn, TurnAt(s, turn).(connection := Some(c), thread := Some(p.thread), images := Some(p.images))))
      else None
    case TurnCompleted(turn, status, error, finished, duration) =>
      Some((turn, TurnAt(s, turn).(completed := Some(CompletedOf(status, error, finished, duration)))))
    case _ => None
  }

  /** What a turn needs before its event can be sent. */
  function Ready(s: State, t: Turn): Option<(Connection, Metadata)> {
    if t.thread.None? || t.images.None? || t.config.None? || t.completed.None? || t.connection.None?
       || t.connection.value !in s.connections || ThreadMetadata(s, t.thread.value).None?
    then None
    else Some((s.connections[t.connection.value], ThreadMetadata(s, t.thread.value).value))
  }

  function Tracked(item: Item): bool {
    !item.Untracked?
  }

  function NextTurns(s: State, f: Fact): map<string, Turn> {
    match Joined(s, f)
    case Some((turn, t)) => if Ready(s, t).Some? then s.turns - {turn} else s.turns[turn := t]
    case None =>
      match f
      case TurnStarted(turn, started) => s.turns[turn := TurnAt(s, turn).(startedAt := Unsigned(started))]
      case TurnDiffUpdated(thread, turn, diff) =>
        s.turns[turn := TurnAt(s, turn).(thread := Some(thread), diff := Some(diff))]
      case TurnSteerResponse(c, id, turn) =>
        if (c, id) in s.requests && s.requests[(c, id)].SteerPending? && turn in s.turns
        then s.turns[turn := s.turns[turn].(steers := s.turns[turn].steers + 1)] else s.turns
      case ItemCompleted(_, turn, item, _) =>
        if Tracked(item) && turn in s.turns
        then s.turns[turn := s.turns[turn].(tools := Counted(s.turns[turn].tools, item))] else s.turns
      case _ => s.turns
  }

  function NextStarted(s: State, f: Fact): map<Key, nat> {
    match f
    case ItemStarted(thread, turn, item, at) =>
      if Tracked(item) && at >= 0 then s.started[Key(thread, turn, item.id) := at] else s.started
    case ItemCompleted(thread, turn, item, _) =>
      if Tracked(item) && turn in s.turns then s.started - {Key(thread, turn, item.id)} else s.started
    case _ => s.started
  }

  /** The review that an approval request opens, if its start time is valid. */
  function Opened(f: Fact): Option<(RequestId, Review)> {
    match f
    case CommandApproval(id, thread, turn, item, context, amendments, permissions, approvalId, at) =>
      var network := context || amendments || permissions == Some(true);
      var trigger :=
        if approvalId then ExecveIntercept else if network then NetworkPolicyDenial
        else if permissions.Some? then SandboxDenial else Initial;
      if at < 0 then None
      else Some((id, Review(
        thread, turn, Some(item), ByUser(id), if context then OnNetworkAccess else OnCommand,
        if context then "network_access" else "command_execution", trigger, at, permissions.Some?, network)))
    case FileChangeApproval(id, thread, turn, item, grantRoot, at) =>
      if at < 0 then None
      else Some((id, Review(
        thread, turn, Some(item), ByUser(id), OnFileChange, "apply_patch",
        if grantRoot then SandboxDenial else Initial, at, grantRoot, false)))
    case PermissionsApproval(id, thread, turn, item, network, files, at) =>
      if at < 0 then None
      else Some((id, Review(
        thread, turn, Some(item), ByUser(id), OnPermissions, "permissions",
        if network then NetworkPolicyDenial else if files then SandboxDenial else Initial, at, network || files, network)))
    case _ => None
  }

  /** The approval request that a fact answers, and how. */
  function Answer(f: Fact): Option<(RequestId, nat, Status, Resolution)> {
    match f
    case CommandDecided(at, id, d) =>
      (match d
       case Accept => Some((id, at, Approved, Unresolved))
       case AcceptForSession => Some((id, at, Approved, SessionApproval))
       case AcceptWithAmendment => Some((id, at, Approved, ExecPolicyAmendment))
       case AmendNetworkPolicy(allow) => Some((id, at, if allow then Approved else Denied, NetworkPolicyAmendment))
       case Decline => Some((id, at, Denied, Unresolved))
       case Cancel => Some((id, at, Aborted, Unresolved)))
    case FileChangeDecided(at, id, d) =>
      (match d
       case AcceptFile => Some((id, at, Approved, Unresolved))
       case AcceptFileForSession => Some((id, at, Approved, SessionApproval))
       case DeclineFile => Some((id, at, Denied, Unresolved))
       case CancelFile => Some((id, at, Aborted, Unresolved)))
    case PermissionsGranted(at, id, nothing, session) =>
      Some((id, at, if nothing then Denied else Approved, if !nothing && session then SessionApproval else Unresolved))
    case ServerRequestAborted(at, id) => Some((id, at, Aborted, Unresolved))
    case _ => None
  }

  function NextReviews(s: State, f: Fact): map<RequestId, Review> {
    if Opened(f).Some? then s.reviews[Opened(f).value.0 := Opened(f).value.1]
    else if Answer(f).Some? then s.reviews - {Answer(f).value.0}
    else s.reviews
  }

  function GuardianResult(status: GuardianStatus): Option<Status> {
    match status
    case GuardianInProgress => None
    case GuardianApproves => Some(Approved)
    case GuardianDenies => Some(Denied)
    case GuardianTimesOut => Some(TimedOut)
    case GuardianAborts => Some(Aborted)
  }

  function GuardianSubject(a: Action): (Subject, string, Trigger) {
    match a
    case RunCommand => (OnCommand, "command_execution", Initial)
    case RunExecve => (OnCommand, "command_execution", ExecveIntercept)
    case ApplyPatch => (OnFileChange, "apply_patch", SandboxDenial)
    case UseNetwork => (OnNetworkAccess, "network_access", NetworkPolicyDenial)
    case AskPermissions(network, files) =>
      (OnPermissions, "permissions", if network then NetworkPolicyDenial else if files then SandboxDenial else Initial)
    case CallMcpTool(tool) => (OnMcpToolCall, tool, Initial)
  }

  function AsksAdditional(a: Action): bool {
    a.ApplyPatch? || a.UseNetwork? || (a.AskPermissions? && (a.network || a.files))
  }

  function AsksNetwork(a: Action): bool {
    a.UseNetwork? || (a.AskPermissions? && a.network)
  }

  /** The review that a fact brings to its end. */
  function Concluded(s: State, f: Fact): Option<Conclusion> {
    match f
    case GuardianReviewCompleted(thread, turn, target, id, verdict, action, started, completed) =>
      if GuardianResult(verdict).None? || started < 0 || completed < 0 then None
      else
        var (subject, name, trigger) := GuardianSubject(action);
        Some(Conclusion(
          Review(thread, turn, target, ByGuardian(id), subject, name, trigger, started, AsksAdditional(action), AsksNetwork(action)),
          Guardian, GuardianResult(verdict).value, Unresolved, completed))
    case _ =>
      match Answer(f)
      case None => None
      case Some((id, at, status, resolution)) =>
        if id in s.reviews then Some(Conclusion(s.reviews[id], User, status, resolution, at)) else None
  }

  /** The tool item that a fact completes, with its start time, once everything its event needs is known. */
  function Finished(s: State, f: Fact): Option<(Key, nat)> {
    match f
    case ItemCompleted(thread, turn, item, at) =>
      if !Tracked(item) || turn !in s.turns || at < 0 then None
      else
        var key := Key(thread, turn, item.id);
        if key !in s.started || ThreadConnection(s, thread).None? || ThreadMetadata(s, thread).None? then None
        else Some((key, s.started[key]))
    case _ => None
  }

  function SummaryAt(s: State, key: Key): Summary {
    if key in s.summaries then s.summaries[key] else NO_REVIEWS
  }

  function NextSummaries(s: State, f: Fact): map<Key, Summary> {
    if Concluded(s, f).Some? && SummaryKey(Concluded(s, f).value.review).Some? then
      var c := Concluded(s, f).value;
      var key := SummaryKey(c.review).value;
      s.summaries[key := Noted(SummaryAt(s, key), c)]
    else if Finished(s, f).Some? then s.summaries - {Finished(s, f).value.0}
    else s.summaries
  }

  function Next(s: State, f: Fact): State {
    State(NextRequests(s, f), NextTurns(s, f), NextConnections(s, f), NextThreads(s, f),
          NextStarted(s, f), NextReviews(s, f), NextSummaries(s, f))
  }

  // ----- what a fact makes the reducer send

  function AcceptedLinesOf(turn: string, t: Turn): seq<TrackEvent> {
    if t.diff.None? || t.thread.None? || t.config.None? then []
    else
      var counts := Diff.ReadAll(Diff.FRESH, Text.Lines(t.diff.value), Diff.PLAIN).summary;
      if counts.added == 0 && counts.deleted == 0 then []
      else [AcceptedLines(turn, t.thread.value, t.config.value.model, counts.added, counts.deleted)]
  }

  function TurnEvents(s: State, turn: string, t: Turn): seq<TrackEvent> {
    match Ready(s, t)
    case None => []
    case Some((connection, metadata)) =>
      [TurnDone(connection, metadata, turn, t.thread.value, t.images.value, t.config.value,
                t.startedAt, t.tokens, t.completed.value, t.steers, t.tools)]
      + AcceptedLinesOf(turn, t)
  }

  /** The steer request that a fact answers, the turn that accepted it, and why it was rejected. */
  function Steered(s: State, f: Fact): Option<(nat, PendingRequest, Option<string>, Option<string>)> {
    match f
    case TurnSteerResponse(c, id, turn) =>
      if (c, id) in s.requests && s.requests[(c, id)].SteerPending? then Some((c, s.requests[(c, id)], Some(turn), None)) else None
    case ErrorResponse(c, id, reason) =>
      if (c, id) in s.requests && s.requests[(c, id)].SteerPending? then Some((c, s.requests[(c, id)], None, reason)) else None
    case _ => None
  }

  function SteerEvents(s: State, f: Fact): seq<TrackEvent> {
    match Steered(s, f)
    case Some((c, SteerPending(thread, expected, images, createdAt), accepted, reason)) =>
      if c in s.connections && ThreadMetadata(s, thread).Some?
      then [TurnSteer(s.connections[c], ThreadMetadata(s, thread).value, thread, expected, accepted, images, reason, createdAt)]
      else []
    case _ => []
  }

  function ReviewEvents(s: State, f: Fact): seq<TrackEvent> {
    match Concluded(s, f)
    case None => []
    case Some(c) =>
      if ThreadConnection(s, c.review.thread).Some? && ThreadMetadata(s, c.review.thread).Some?
      then [ReviewDone(ThreadConnection(s, c.review.thread).value, ThreadMetadata(s, c.review.thread).value, c)]
      else []
  }

  function ToolEvents(s: State, f: Fact): seq<TrackEvent> {
    match Finished(s, f)
    case Some((key, startedAt)) =>
      if f.ItemCompleted? && TerminalOf(f.item).Some? && ThreadConnection(s, key.thread).Some?
         && ThreadMetadata(s, key.thread).Some? && f.atMs >= 0
      then [ToolItem(ThreadConnection(s, key.thread).value, ThreadMetadata(s, key.thread).value, key, f.item,
                     TerminalOf(f.item).value, startedAt, f.atMs, SummaryAt(s, key))]
      else []
    case None => []
  }

  function ThreadEvents(s: State, f: Fact): seq<TrackEvent> {
    match f
    case ThreadResponse(c, thread, mode, source, subagent, model) =>
      if c in s.connections then [ThreadInitialized(thread, Some(s.connections[c]), MetadataOf(mode, source, subagent), model)] else []
    case SubagentThreadStarted(thread, parent, spawned) =>
      [ThreadInitialized(thread, None, SubagentMetadata(parent, spawned), "")]
    case CompactionDone(thread, turn) =>
      if ThreadConnection(s, thread).Some? && ThreadMetadata(s, thread).Some?
      then [Compaction(ThreadConnection(s, thread).value, ThreadMetadata(s, thread).value, thread, turn)] else []
    case GuardianReviewed(thread, turn, review) =>
      if ThreadConnection(s, thread).Some? then [GuardianReview(ThreadConnection(s, thread).value, thread, turn, review)] else []
    case _ => []
  }

  function JoinEvents(s: State, f: Fact): seq<TrackEvent> {
    match Joined(s, f)
    case Some((turn, t)) => TurnEvents(s, turn, t)
    case None => []
  }

  /** The events that a fact causes; they are of one of these sorts. */
  function Sent(s: State, f: Fact): seq<TrackEvent> {
    JoinEvents(s, f) + ThreadEvents(s, f) + SteerEvents(s, f) + ReviewEvents(s, f) + ToolEvents(s, f)
  }

  /** The five sorts of events. */
  datatype Sort = OfThread | OfSteer | OfReview | OfItem | OfTurn

  function SortOf(e: TrackEvent): Sort {
    match e
    case TurnDone(_, _, _, _, _, _, _, _, _, _, _) => OfTurn
    case AcceptedLines(_, _, _, _, _) => OfTurn
    case TurnSteer(_, _, _, _, _, _, _, _) => OfSteer
    case ReviewDone(_, _, _) => OfReview
    case ToolItem(_, _, _, _, _, _, _, _) => OfItem
    case _ => OfThread
  }

  ghost predicate AllOf(events: seq<TrackEvent>, sort: Sort) {
    forall i :: 0 <= i < |events| ==> SortOf(events[i]) == sort
  }

  lemma JoinSort(s: State, f: Fact)
    ensures AllOf(JoinEvents(s, f), OfTurn)
  {
  }

  lemma ThreadSort(s: State, f: Fact)
    ensures AllOf(ThreadEvents(s, f), OfThread)
  {
  }

  lemma SteerSort(s: State, f: Fact)
    ensures AllOf(SteerEvents(s, f), OfSteer)
  {
  }

  lemma ReviewSort(s: State, f: Fact)
    ensures AllOf(ReviewEvents(s, f), OfReview)
  {
  }

  lemma ItemSort(s: State, f: Fact)
    ensures AllOf(ToolEvents(s, f), OfItem)
  {
  }

  // ----- runs

  function Run(facts: seq<Fact>): State {
    if facts == [] then INITIAL else Next(Run(facts[..|facts| - 1]), facts[|facts| - 1])
  }

  /** Everything that a run sends. */
  function AllSent(facts: seq<Fact>): seq<TrackEvent> {
    if facts == [] then []
    else AllSent(facts[..|facts| - 1]) + Sent(Run(facts[..|facts| - 1]), facts[|facts| - 1])
  }
}
