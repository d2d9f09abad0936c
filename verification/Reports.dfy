/** What a run of facts reports about reviews, tool items, connections and threads, told from the facts alone. */
module Reports {
  import opened Wrappers
  import opened Seqs
  import opened Analytics
  import opened Accounting

  // ----- connections and threads

  /** What the last initialisation of a connection said. */
  function ClientOf(facts: seq<Fact>, c: nat): Option<Connection> {
    if facts == [] then None
    else
      var f := facts[|facts| - 1];
      if f.Initialize? && f.connection == c then Some(Connection(f.client, f.runtime)) else ClientOf(facts[..|facts| - 1], c)
  }

  lemma {:induction false} ClientsAreExact(facts: seq<Fact>, c: nat)
    ensures Get(Run(facts).connections, c) == ClientOf(facts, c)
  {
    if facts != [] {
      var init, f := facts[..|facts| - 1], facts[|facts| - 1];
      ClientsAreExact(init, c);
      assert Run(facts).connections == NextConnections(Run(init), f);
    }
  }

  function OrElse<T>(a: Option<T>, b: Option<T>): Option<T> {
    if a.Some? then a else b
  }

  /** The thread that a response describes: that of the session, or that of a subagent with what spawned it. */
  function Described(f: Fact): Metadata
    requires f.ThreadResponse?
  {
    Metadata(f.source, f.mode, if f.subagent.Some? then Some(f.subagent.value.name) else None,
             if f.subagent.Some? then f.subagent.value.parent else None)
  }

  function Spawned(f: Fact): Metadata
    requires f.SubagentThreadStarted?
  {
    Metadata(Some("subagent"), New, Some(f.spawned.name), OrElse(f.parent, f.spawned.parent))
  }

  /** What is known of a thread: what the last response said, else what the first spawn said. */
  function MetadataIn(facts: seq<Fact>, thread: string): Option<Metadata> {
    if facts == [] then None
    else
      var init, f := facts[..|facts| - 1], facts[|facts| - 1];
      if f.ThreadResponse? && f.thread == thread && ClientOf(init, f.connection).Some? then Some(Described(f))
      else if f.SubagentThreadStarted? && f.thread == thread then OrElse(MetadataIn(init, thread), Some(Spawned(f)))
      else MetadataIn(init, thread)
  }

  /** The connection of a thread: that of its last response, else the one that its parent had when it was spawned. */
  function ConnectionIn(facts: seq<Fact>, thread: string): Option<nat> {
    if facts == [] then None
    else
      var init, f := facts[..|facts| - 1], facts[|facts| - 1];
      if f.ThreadResponse? && f.thread == thread && ClientOf(init, f.connection).Some? then Some(f.connection)
      else if f.SubagentThreadStarted? && f.thread == thread then
        OrElse(ConnectionIn(init, thread),
               if f.parent.Some? then ConnectionIn(init, f.parent.value)
               else if f.spawned.parent.Some? then ConnectionIn(init, f.spawned.parent.value) else None)
      else ConnectionIn(init, thread)
  }

  ghost predicate ThreadIs(s: State, thread: string, connection: Option<nat>, metadata: Option<Metadata>) {
    && ThreadMetadata(s, thread) == metadata
    && connection == if thread in s.threads then s.threads[thread].connection else None
  }

  lemma ThreadStep(s: State, f: Fact, thread: string)
    ensures Next(s, f).threads == NextThreads(s, f)
    ensures f.ThreadResponse? && f.thread == thread && f.connection in s.connections ==>
              ThreadIs(Next(s, f), thread, Some(f.connection), Some(Described(f)))
    ensures (f.ThreadResponse? && (f.thread != thread || f.connection !in s.connections))
            || (f.SubagentThreadStarted? && f.thread != thread) || (!f.ThreadResponse? && !f.SubagentThreadStarted?) ==>
              Get(Next(s, f).threads, thread) == Get(s.threads, thread)
  {
  }

  lemma SpawnStep(s: State, f: Fact, own: Option<nat>, parents: Option<nat>, metadata: Option<Metadata>)
    requires f.SubagentThreadStarted? && ThreadIs(s, f.thread, own, metadata)
    requires parents == (if f.parent.Some? && f.parent.value in s.threads then s.threads[f.parent.value].connection
                         else if f.parent.None? && f.spawned.parent.Some? && f.spawned.parent.value in s.threads
                         then s.threads[f.spawned.parent.value].connection else None)
    ensures ThreadIs(Next(s, f), f.thread, OrElse(own, parents), OrElse(metadata, Some(Spawned(f))))
  {
  }

  /** In every reachable state the thread table says of a thread what the facts said of it. */
  lemma {:induction false} ThreadsAreExact(facts: seq<Fact>, thread: string)
    ensures ThreadIs(Run(facts), thread, ConnectionIn(facts, thread), MetadataIn(facts, thread))
    decreases |facts|, 0
  {
    if facts != [] {
      var init, f := facts[..|facts| - 1], facts[|facts| - 1];
      ThreadsAreExact(init, thread);
      ThreadStep(Run(init), f, thread);
      if f.ThreadResponse? {
        ClientsAreExact(init, f.connection);
      } else if f.SubagentThreadStarted? && f.thread == thread {
        SpawnIsExact(init, f);
      }
    }
  }

  lemma SpawnIsExact(init: seq<Fact>, f: Fact)
    requires f.SubagentThreadStarted?
    ensures var parent := OrElse(f.parent, f.spawned.parent);
            ThreadIs(Next(Run(init), f), f.thread,
                     OrElse(ConnectionIn(init, f.thread), if parent.Some? then ConnectionIn(init, parent.value) else None),
                     OrElse(MetadataIn(init, f.thread), Some(Spawned(f))))
    decreases |init|, 1
  {
    ThreadsAreExact(init, f.thread);
    var parent := OrElse(f.parent, f.spawned.parent);
    if parent.Some? {
      ThreadsAreExact(init, parent.value);
    }
    SpawnStep(Run(init), f, ConnectionIn(init, f.thread), if parent.Some? then ConnectionIn(init, parent.value) else None,
              MetadataIn(init, f.thread));
  }

  /** The client and the thread that an event about a thread names; without both there is no event. */
  function ContextIn(facts: seq<Fact>, thread: string): Option<(Connection, Metadata)> {
    var c, metadata := ConnectionIn(facts, thread), MetadataIn(facts, thread);
    if c.Some? && ClientOf(facts, c.value).Some? && metadata.Some? then Some((ClientOf(facts, c.value).value, metadata.value)) else None
  }

  lemma ContextsAreExact(facts: seq<Fact>, thread: string)
    ensures ContextIn(facts, thread) ==
            if ThreadConnection(Run(facts), thread).Some? && ThreadMetadata(Run(facts), thread).Some?
            then Some((ThreadConnection(Run(facts), thread).value, ThreadMetadata(Run(facts), thread).value)) else None
  {
    ThreadsAreExact(facts, thread);
    if ConnectionIn(facts, thread).Some? {
      ClientsAreExact(facts, ConnectionIn(facts, thread).value);
    }
  }

  // ----- reviews

  predicate IsAnswer(f: Fact, id: RequestId) {
    (f.CommandDecided? || f.FileChangeDecided? || f.PermissionsGranted? || f.ServerRequestAborted?) && f.request == id
  }

  predicate IsApproval(f: Fact, id: RequestId) {
    (f.CommandApproval? || f.FileChangeApproval? || f.PermissionsApproval?) && f.request == id && f.startedMs >= 0
  }

  /** What is asked for decides the subject of the review and what triggered it. */
  predicate Asks(f: Fact, r: Review) {
    if f.CommandApproval? then
      && r.additional == f.permissions.Some?
      && r.network == (f.networkContext || f.amendments || f.permissions == Some(true))
      && (if f.networkContext then r.subject == OnNetworkAccess && r.name == "network_access"
          else r.subject == OnCommand && r.name == "command_execution")
      && (r.trigger == ExecveIntercept <==> f.approvalId)
      && (r.trigger == NetworkPolicyDenial <==> !f.approvalId && r.network)
      && (r.trigger == SandboxDenial <==> !f.approvalId && !r.network && r.additional)
    else if f.FileChangeApproval? then
      && r.subject == OnFileChange && r.name == "apply_patch" && !r.network && r.additional == f.grantRoot
      && r.trigger == if f.grantRoot then SandboxDenial else Initial
    else
      && f.PermissionsApproval? && r.subject == OnPermissions && r.name == "permissions"
      && r.network == f.network && r.additional == (f.network || f.files)
      && r.trigger == if f.network then NetworkPolicyDenial else if f.files then SandboxDenial else Initial
  }

  /** The review that an approval request under `id` opens. */
  predicate IsOpening(f: Fact, id: RequestId, r: Review) {
    && IsApproval(f, id) && r.id == ByUser(id) && r.thread == f.thread && r.turn == f.turn && r.item == Some(f.targetItem)
    && r.startedAt == f.startedMs && Asks(f, r)
  }

  /** The last approval request under `id`, unanswered since, opened the review. */
  ghost predicate Awaits(facts: seq<Fact>, id: RequestId, r: Review) {
    exists k :: 0 <= k < |facts| && IsOpening(facts[k], id, r) && Quiet(facts, k + 1, id)
  }

  ghost predicate Quiet(facts: seq<Fact>, k: nat, id: RequestId) {
    forall j :: k <= j < |facts| ==> !IsApproval(facts[j], id) && !IsAnswer(facts[j], id)
  }

  lemma OpenedIs(f: Fact, id: RequestId)
    ensures Opens(f, id) <==> IsApproval(f, id)
    ensures Opens(f, id) ==> IsOpening(f, id, Opened(f).value.1)
  {
  }

  lemma OpeningIsUnique(f: Fact, id: RequestId, r: Review, q: Review)
    requires IsOpening(f, id, r) && IsOpening(f, id, q)
    ensures r == q
  {
  }

  lemma AnswersAre(f: Fact, id: RequestId)
    ensures (Answer(f).Some? && Answer(f).value.0 == id) <==> IsAnswer(f, id)
  {
  }

  lemma AwaitsStep(facts: seq<Fact>, id: RequestId, r: Review)
    requires facts != []
    ensures var init, f := facts[..|facts| - 1], facts[|facts| - 1];
            Awaits(facts, id, r) <==>
            if IsApproval(f, id) then IsOpening(f, id, r) else !IsAnswer(f, id) && Awaits(init, id, r)
  {
    var init, last := facts[..|facts| - 1], |facts| - 1;
    if Awaits(facts, id, r) {
      var k :| 0 <= k < |facts| && IsOpening(facts[k], id, r) && Quiet(facts, k + 1, id);
      if k < last {
        assert IsOpening(init[k], id, r) && Quiet(init, k + 1, id);
      }
    }
    if IsOpening(facts[last], id, r) {
      assert Quiet(facts, last + 1, id);
    } else if !IsApproval(facts[last], id) && !IsAnswer(facts[last], id) && Awaits(init, id, r) {
      var k :| 0 <= k < |init| && IsOpening(init[k], id, r) && Quiet(init, k + 1, id);
      QuietSnoc(facts, k + 1, id);
      assert IsOpening(facts[k], id, r);
    }
  }

  lemma QuietSnoc(facts: seq<Fact>, k: nat, id: RequestId)
    requires facts != [] && Quiet(facts[..|facts| - 1], k, id)
    requires !IsApproval(facts[|facts| - 1], id) && !IsAnswer(facts[|facts| - 1], id)
    ensures Quiet(facts, k, id)
  {
    forall j | k <= j < |facts|
      ensures !IsApproval(facts[j], id) && !IsAnswer(facts[j], id)
    {
      if j < |facts| - 1 {
        assert facts[..|facts| - 1][j] == facts[j];
      }
    }
  }

  /** The reviews that wait are the ones that the facts leave waiting. */
  lemma {:induction false} AwaitedIff(facts: seq<Fact>, id: RequestId, r: Review)
    ensures Get(Run(facts).reviews, id) == Some(r) <==> Awaits(facts, id, r)
  {
    PendingReviewsExact(facts, id);
    if facts != [] {
      var init, f := facts[..|facts| - 1], facts[|facts| - 1];
      AwaitedIff(init, id, r);
      PendingReviewsExact(init, id);
      AwaitsStep(facts, id, r);
      OpenedIs(f, id);
      AnswersAre(f, id);
      if Opens(f, id) && IsOpening(f, id, r) {
        OpeningIsUnique(f, id, r, Opened(f).value.1);
      }
    }
  }

  /** How the user's answer ends a review. */
  predicate Decides(f: Fact, status: Status, resolution: Resolution) {
    && (match status
        case Approved =>
          || (f.CommandDecided? && (f.command.Accept? || f.command.AcceptForSession? || f.command.AcceptWithAmendment?
                                    || f.command == AmendNetworkPolicy(true)))
          || (f.FileChangeDecided? && (f.file.AcceptFile? || f.file.AcceptFileForSession?))
          || (f.PermissionsGranted? && !f.nothing)
        case Denied =>
          || (f.CommandDecided? && (f.command.Decline? || f.command == AmendNetworkPolicy(false)))
          || (f.FileChangeDecided? && f.file.DeclineFile?)
          || (f.PermissionsGranted? && f.nothing)
        case Aborted =>
          || (f.CommandDecided? && f.command.Cancel?)
          || (f.FileChangeDecided? && f.file.CancelFile?)
          || f.ServerRequestAborted?
        case TimedOut => false)
    && (resolution == SessionApproval <==>
          || (f.CommandDecided? && f.command.AcceptForSession?)
          || (f.FileChangeDecided? && f.file.AcceptFileForSession?)
          || (f.PermissionsGranted? && !f.nothing && f.session))
    && (resolution == ExecPolicyAmendment <==> f.CommandDecided? && f.command.AcceptWithAmendment?)
    && (resolution == NetworkPolicyAmendment <==> f.CommandDecided? && f.command.AmendNetworkPolicy?)
  }

  /** How the guardian's verdict ends a review; a review in progress has not ended. */
  predicate Judges(verdict: GuardianStatus, status: Status) {
    match status
    case Approved => verdict == GuardianApproves
    case Denied => verdict == GuardianDenies
    case TimedOut => verdict == GuardianTimesOut
    case Aborted => verdict == GuardianAborts
  }

  /** What the guardian looked at decides the subject of the review and what triggered it. */
  predicate Examines(a: Action, r: Review) {
    match r.subject
    case OnCommand =>
      && (a.RunCommand? || a.RunExecve?) && r.name == "command_execution" && !r.additional && !r.network
      && r.trigger == if a.RunExecve? then ExecveIntercept else Initial
    case OnFileChange => a.ApplyPatch? && r.name == "apply_patch" && r.trigger == SandboxDenial && r.additional && !r.network
    case OnNetworkAccess => a.UseNetwork? && r.name == "network_access" && r.trigger == NetworkPolicyDenial && r.additional && r.network
    case OnPermissions =>
      && a.AskPermissions? && r.name == "permissions" && r.network == a.network && r.additional == (a.network || a.files)
      && r.trigger == if a.network then NetworkPolicyDenial else if a.files then SandboxDenial else Initial
    case OnMcpToolCall => a.CallMcpTool? && r.name == a.tool && r.trigger == Initial && !r.additional && !r.network
  }

  predicate GuardianEnds(f: Fact, c: Conclusion) {
    && f.GuardianReviewCompleted? && f.startedMs >= 0 && f.completedMs >= 0
    && c.reviewer == Guardian && Judges(f.verdict, c.status) && c.resolution == Unresolved && c.at == f.completedMs
    && c.review.thread == f.thread && c.review.turn == f.turn && c.review.item == f.target && c.review.id == ByGuardian(f.review)
    && c.review.startedAt == f.startedMs && Examines(f.action, c.review)
  }

  ghost predicate UserEnds(facts: seq<Fact>, f: Fact, c: Conclusion) {
    && (f.CommandDecided? || f.FileChangeDecided? || f.PermissionsGranted? || f.ServerRequestAborted?)
    && Awaits(facts, f.request, c.review)
    && c.reviewer == User && Decides(f, c.status, c.resolution) && c.at == f.at
  }

  lemma GuardianConcludes(s: State, f: Fact, c: Conclusion)
    requires f.GuardianReviewCompleted?
    ensures Concluded(s, f) == Some(c) <==> GuardianEnds(f, c)
  {
  }

  lemma DecidesUniquely(f: Fact, status: Status, resolution: Resolution)
    requires Answer(f).Some?
    ensures Decides(f, status, resolution) <==> (Answer(f).value.2, Answer(f).value.3) == (status, resolution)
    ensures IsAnswer(f, Answer(f).value.0) && Answer(f).value.1 == f.at
  {
  }

  lemma UserConcludes(facts: seq<Fact>, f: Fact, c: Conclusion)
    requires !f.GuardianReviewCompleted?
    ensures Concluded(Run(facts), f) == Some(c) <==> UserEnds(facts, f, c)
  {
    if f.CommandDecided? || f.FileChangeDecided? || f.PermissionsGranted? || f.ServerRequestAborted? {
      AnswersAre(f, f.request);
      DecidesUniquely(f, c.status, c.resolution);
      AwaitedIff(facts, f.request, c.review);
      UserConcludesAt(Run(facts), f, c);
    }
  }

  lemma UserConcludesAt(s: State, f: Fact, c: Conclusion)
    requires Answer(f).Some?
    ensures Concluded(s, f) == Some(c) <==>
            && Get(s.reviews, Answer(f).value.0) == Some(c.review) && c.reviewer == User
            && (Answer(f).value.2, Answer(f).value.3) == (c.status, c.resolution) && Answer(f).value.1 == c.at
  {
  }

  /** After any facts a fact ends a review exactly if the guardian judged it or the user answered the request that waits. */
  lemma ReviewEndsIff(facts: seq<Fact>, f: Fact, c: Conclusion)
    ensures Concluded(Run(facts), f) == Some(c) <==> GuardianEnds(f, c) || UserEnds(facts, f, c)
  {
    if f.GuardianReviewCompleted? {
      GuardianConcludes(Run(facts), f, c);
    } else {
      UserConcludes(facts, f, c);
    }
  }

  /** A review is reported exactly if it ends on a thread whose context is known, with that context. */
  lemma ReviewReportedIff(facts: seq<Fact>, f: Fact, e: TrackEvent)
    ensures e in ReviewEvents(Run(facts), f) <==>
            && e.ReviewDone? && (GuardianEnds(f, e.conclusion) || UserEnds(facts, f, e.conclusion))
            && ContextIn(facts, e.conclusion.review.thread) == Some((e.connection, e.metadata))
  {
    if e.ReviewDone? {
      ReviewEndsIff(facts, f, e.conclusion);
      ContextsAreExact(facts, e.conclusion.review.thread);
    }
  }

  // ----- tool items

  /** Since when an item runs: the last valid start that no completion on a known turn has taken. */
  function RunningSince(facts: seq<Fact>, key: Key): Option<nat> {
    if facts == [] then None
    else
      var init, f := facts[..|facts| - 1], facts[|facts| - 1];
      if f.ItemStarted? && !f.item.Untracked? && f.atMs >= 0 && f.thread == key.thread && f.turn == key.turn && f.item.id == key.item then
        Some(f.atMs)
      else if f.ItemCompleted? && !f.item.Untracked? && f.turn in Run(init).turns
              && f.thread == key.thread && f.turn == key.turn && f.item.id == key.item then None
      else RunningSince(init, key)
  }

  lemma StartedStep(s: State, f: Fact, key: Key)
    ensures Get(Next(s, f).started, key) ==
            if f.ItemStarted? && !f.item.Untracked? && f.atMs >= 0 && f.thread == key.thread && f.turn == key.turn && f.item.id == key.item then
              Some(f.atMs)
            else if f.ItemCompleted? && !f.item.Untracked? && f.turn in s.turns
                    && f.thread == key.thread && f.turn == key.turn && f.item.id == key.item then None
            else Get(s.started, key)
  {
    assert Next(s, f).started == NextStarted(s, f);
  }

  lemma {:induction false} RunningItemsExact(facts: seq<Fact>, key: Key)
    ensures Get(Run(facts).started, key) == RunningSince(facts, key)
  {
    if facts != [] {
      RunningItemsExact(facts[..|facts| - 1], key);
      StartedStep(Run(facts[..|facts| - 1]), facts[|facts| - 1], key);
    }
  }

  /** How an item ended. */
  predicate EndsAs(item: Item, end: Terminal) {
    !item.Untracked? &&
    match end
    case Succeeded =>
      item.WebSearch? || (if item.ImageGeneration? then item.outcome !in {"failed", "error"} else item.status == ToolCompleted)
    case Broken =>
      !item.WebSearch? && if item.ImageGeneration? then item.outcome in {"failed", "error"} else item.status == ToolFailed
    case Rejected => !item.WebSearch? && !item.ImageGeneration? && item.status == ToolDeclined
  }

  lemma TerminalIs(item: Item, end: Terminal)
    ensures TerminalOf(item) == Some(end) <==> EndsAs(item, end)
  {
  }

  /** The event that the completion of an item sends. */
  predicate Completes(f: Fact, e: TrackEvent) {
    && f.ItemCompleted? && e.ToolItem? && EndsAs(f.item, e.end)
    && e.key == Key(f.thread, f.turn, f.item.id) && e.item == f.item && e.completedMs == f.atMs
  }

  lemma ToolEventIs(s: State, f: Fact, e: TrackEvent)
    ensures e in ToolEvents(s, f) <==>
            && Completes(f, e) && f.turn in s.turns && Get(s.started, e.key) == Some(e.startedMs)
            && ThreadConnection(s, f.thread) == Some(e.connection) && ThreadMetadata(s, f.thread) == Some(e.metadata)
            && e.summary == SummaryAt(s, e.key)
  {
    if f.ItemCompleted? && e.ToolItem? {
      TerminalIs(f.item, e.end);
    }
  }

  /**
   * A tool item is reported exactly if it ends on a known turn of a thread whose context is known and was started
   * before; with its start and end, and with the reviews since it was last reported.
   */
  lemma ItemReportedIff(facts: seq<Fact>, f: Fact, e: TrackEvent)
    ensures e in ToolEvents(Run(facts), f) <==>
            && Completes(f, e) && f.turn in Run(facts).turns && RunningSince(facts, e.key) == Some(e.startedMs)
            && ContextIn(facts, f.thread) == Some((e.connection, e.metadata))
            && e.summary == SummaryOf(ReviewsOf(facts, e.key))
  {
    ToolEventIs(Run(facts), f, e);
    if Completes(f, e) {
      RunningItemsExact(facts, e.key);
      ContextsAreExact(facts, f.thread);
      SummariesAreExact(facts, e.key);
    }
  }

  // ----- the tool items of a turn

  /** The tracked items of a turn that finished since the turn is known, in order. */
  function FinishedItems(facts: seq<Fact>, turn: string): seq<Item> {
    if facts == [] then []
    else
      var init, f := facts[..|facts| - 1], facts[|facts| - 1];
      if turn !in Run(init).turns then []
      else if f.ItemCompleted? && f.turn == turn && !f.item.Untracked? then FinishedItems(init, turn) + [f.item]
      else FinishedItems(init, turn)
  }

  function HowMany(items: seq<Item>, which: Item -> bool): nat {
    |Filter(items, which)|
  }

  predicate IsCommand(item: Item) { item.CommandExecution? }
  predicate IsFileChange(item: Item) { item.FileChange? }
  predicate IsMcpCall(item: Item) { item.McpToolCall? }
  predicate IsDynamicCall(item: Item) { item.DynamicToolCall? }
  predicate IsCollab(item: Item) { item.CollabAgentToolCall? }
  predicate IsWebSearch(item: Item) { item.WebSearch? }
  predicate IsImage(item: Item) { item.ImageGeneration? }

  predicate CountsItems(c: ToolCounts, items: seq<Item>) {
    && c.total == |items|
    && c.shell == HowMany(items, IsCommand)
    && c.file == HowMany(items, IsFileChange)
    && c.mcp == HowMany(items, IsMcpCall)
    && c.dynamic == HowMany(items, IsDynamicCall)
    && c.subagent == HowMany(items, IsCollab)
    && c.web == HowMany(items, IsWebSearch)
    && c.image == HowMany(items, IsImage)
  }

  lemma HowManySnoc(items: seq<Item>, item: Item, which: Item -> bool)
    ensures HowMany(items + [item], which) == HowMany(items, which) + if which(item) then 1 else 0
  {
    FilterAppend(items, [item], which);
  }

  lemma CountedSnoc(c: ToolCounts, items: seq<Item>, item: Item)
    requires CountsItems(c, items) && !item.Untracked?
    ensures CountsItems(Counted(c, item), items + [item])
  {
    HowManySnoc(items, item, IsCommand);
    HowManySnoc(items, item, IsFileChange);
    HowManySnoc(items, item, IsMcpCall);
    HowManySnoc(items, item, IsDynamicCall);
    HowManySnoc(items, item, IsCollab);
    HowManySnoc(items, item, IsWebSearch);
    HowManySnoc(items, item, IsImage);
  }

  lemma ToolsStep(s: State, f: Fact, turn: string)
    requires turn in NextTurns(s, f)
    ensures NextTurns(s, f)[turn].tools ==
            if turn !in s.turns then ToolCounts(0, 0, 0, 0, 0, 0, 0, 0)
            else if f.ItemCompleted? && f.turn == turn && !f.item.Untracked? then Counted(s.turns[turn].tools, f.item)
            else s.turns[turn].tools
  {
    if Joined(s, f).Some? {
      JoinedKeepsTools(s, f);
    }
  }

  lemma CountsStep(s: State, f: Fact, turn: string, items: seq<Item>)
    requires turn in NextTurns(s, f)
    requires if turn in s.turns then CountsItems(s.turns[turn].tools, items) else items == []
    ensures CountsItems(NextTurns(s, f)[turn].tools,
                        if turn in s.turns && f.ItemCompleted? && f.turn == turn && !f.item.Untracked? then items + [f.item] else items)
  {
    ToolsStep(s, f, turn);
    if f.ItemCompleted? && f.turn == turn && turn in s.turns && !f.item.Untracked? {
      CountedSnoc(s.turns[turn].tools, items, f.item);
    }
  }

  /** In every reachable state a turn counts, in total and by category, exactly its items that finished since it is known. */
  lemma {:induction false} ToolCountsAreExact(facts: seq<Fact>, turn: string)
    requires turn in Run(facts).turns
    ensures CountsItems(Run(facts).turns[turn].tools, FinishedItems(facts, turn))
  {
    var init, f := facts[..|facts| - 1], facts[|facts| - 1];
    if turn in Run(init).turns {
      ToolCountsAreExact(init, turn);
      CountsStep(Run(init), f, turn, FinishedItems(init, turn));
    } else {
      CountsStep(Run(init), f, turn, []);
    }
  }
}
