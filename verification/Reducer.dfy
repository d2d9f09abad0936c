/** The reducer as the source holds it: seven tables that its handlers update in place. */
module Reducer {
  import opened Wrappers
  import opened Analytics
  import Diff

  // ----- which sort of events a fact can cause

  predicate IsJoin(f: Fact) {
    f.TurnResolvedConfig? || f.TurnTokenUsage? || f.TurnStartResponse? || f.TurnCompleted?
  }

  predicate EndsReview(f: Fact) {
    f.GuardianReviewCompleted? || f.CommandDecided? || f.FileChangeDecided? || f.PermissionsGranted? || f.ServerRequestAborted?
  }

  predicate EndsRequest(f: Fact) {
    f.TurnSteerResponse? || f.ErrorResponse?
  }

  predicate IsThreadFact(f: Fact) {
    f.ThreadResponse? || f.SubagentThreadStarted? || f.CompactionDone? || f.GuardianReviewed?
  }

  lemma NoJoinEvents(s: State, f: Fact)
    ensures !IsJoin(f) ==> JoinEvents(s, f) == []
  {
  }

  lemma NoThreadEvents(s: State, f: Fact)
    ensures !IsThreadFact(f) ==> ThreadEvents(s, f) == []
  {
  }

  lemma NoSteerEvents(s: State, f: Fact)
    ensures !EndsRequest(f) ==> SteerEvents(s, f) == []
  {
  }

  lemma NoReviewEvents(s: State, f: Fact)
    ensures !EndsReview(f) ==> ReviewEvents(s, f) == []
  {
  }

  lemma NoToolEvents(s: State, f: Fact)
    ensures !f.ItemCompleted? ==> ToolEvents(s, f) == []
  {
  }

  lemma SentSorts(s: State, f: Fact)
    ensures IsJoin(f) ==> Sent(s, f) == JoinEvents(s, f)
    ensures EndsReview(f) ==> Sent(s, f) == ReviewEvents(s, f)
    ensures EndsRequest(f) ==> Sent(s, f) == SteerEvents(s, f)
    ensures IsThreadFact(f) ==> Sent(s, f) == ThreadEvents(s, f)
    ensures f.ItemCompleted? ==> Sent(s, f) == ToolEvents(s, f)
    ensures !IsJoin(f) && !EndsReview(f) && !EndsRequest(f) && !IsThreadFact(f) && !f.ItemCompleted? ==> Sent(s, f) == []
  {
    NoJoinEvents(s, f);
    NoThreadEvents(s, f);
    NoSteerEvents(s, f);
    NoReviewEvents(s, f);
    NoToolEvents(s, f);
  }

  /** An answer to an approval request touches only the reviews and the summaries. */
  lemma AnswerChanges(s: State, f: Fact)
    requires Answer(f).Some?
    ensures Next(s, f) == s.(reviews := s.reviews - {Answer(f).value.0}, summaries := NextSummaries(s, f))
  {
  }

  lemma AnswerConcludes(s: State, f: Fact)
    requires Answer(f).Some?
    ensures Finished(s, f).None?
    ensures Concluded(s, f) ==
            if Answer(f).value.0 in s.reviews
            then Some(Conclusion(s.reviews[Answer(f).value.0], User, Answer(f).value.2, Answer(f).value.3, Answer(f).value.1))
            else None
  {
  }

  /** An approval request touches only the reviews. */
  lemma OpeningChanges(s: State, f: Fact)
    requires f.CommandApproval? || f.FileChangeApproval? || f.PermissionsApproval?
    ensures Next(s, f) == s.(reviews := NextReviews(s, f)) && Answer(f).None?
  {
  }

  class AnalyticsReducer {
    var requests: map<(nat, RequestId), PendingRequest>
    var turns: map<string, Turn>
    var connections: map<nat, Connection>
    var threads: map<string, Thread>
    var started: map<Key, nat>
    var reviews: map<RequestId, Review>
    var summaries: map<Key, Summary>
    var out: seq<TrackEvent>

    function View(): State
      reads this
    {
      State(requests, turns, connections, threads, started, reviews, summaries)
    }

    constructor ()
      ensures View() == INITIAL && out == []
    {
      requests, turns, connections, threads, started, reviews, summaries := map[], map[], map[], map[], map[], map[], map[];
      out := [];
    }

    // ----- threads

    method IngestInitialize(f: Fact)
      requires f.Initialize?
      modifies `connections
      ensures View() == Next(old(View()), f)
    {
      connections := connections[f.connection := Connection(f.client, f.runtime)];
    }

    method EmitThreadInitialized(f: Fact)
      requires f.ThreadResponse?
      modifies `threads, `out
      ensures View() == Next(old(View()), f) && out == old(out) + ThreadEvents(old(View()), f)
    {
      if f.connection !in connections {
        return;
      }
      var metadata := MetadataOf(f.mode, f.source, f.subagent);
      threads := threads[f.thread := Thread(Some(f.connection), Some(metadata))];
      out := out + [ThreadInitialized(f.thread, Some(connections[f.connection]), metadata, f.model)];
    }

    method IngestSubagentThreadStarted(f: Fact)
      requires f.SubagentThreadStarted?
      modifies `threads, `out
      ensures View() == Next(old(View()), f) && out == old(out) + ThreadEvents(old(View()), f)
    {
      var parent := ParentOf(f.parent, f.spawned);
      var parentConnection := None;
      if parent.Some? && parent.value in threads {
        parentConnection := threads[parent.value].connection;
      }
      var thread := if f.thread in threads then threads[f.thread] else Thread(None, None);
      if thread.metadata.None? {
        thread := thread.(metadata := Some(SubagentMetadata(f.parent, f.spawned)));
      }
      if thread.connection.None? {
        thread := thread.(connection := parentConnection);
      }
      threads := threads[f.thread := thread];
      out := out + [ThreadInitialized(f.thread, None, SubagentMetadata(f.parent, f.spawned), "")];
    }

    method IngestCompaction(f: Fact)
      requires f.CompactionDone?
      modifies `out
      ensures View() == Next(old(View()), f) && out == old(out) + ThreadEvents(old(View()), f)
    {
      var connection, metadata := ThreadConnection(View(), f.thread), ThreadMetadata(View(), f.thread);
      if connection.Some? && metadata.Some? {
        out := out + [Compaction(connection.value, metadata.value, f.thread, f.turn)];
      }
    }

    method IngestGuardianReview(f: Fact)
      requires f.GuardianReviewed?
      modifies `out
      ensures View() == Next(old(View()), f) && out == old(out) + ThreadEvents(old(View()), f)
    {
      var connection := ThreadConnection(View(), f.thread);
      if connection.Some? {
        out := out + [GuardianReview(connection.value, f.thread, f.turn, f.review)];
      }
    }

    // ----- turns

    /** Sends the events of a turn that has all it needs, and forgets the turn. */
    method MaybeEmitTurnEvent(turn: string)
      requires turn in turns
      modifies `turns, `out
      ensures out == old(out) + TurnEvents(old(View()), turn, old(turns)[turn])
      ensures turns == if Ready(old(View()), old(turns)[turn]).Some? then old(turns) - {turn} else old(turns)
    {
      var t := turns[turn];
      if t.thread.None? || t.images.None? || t.config.None? || t.completed.None? || t.connection.None? {
        return;
      }
      if t.connection.value !in connections {
        return;
      }
      var metadata := ThreadMetadata(View(), t.thread.value);
      if metadata.None? {
        return;
      }
      out := out + [TurnDone(connections[t.connection.value], metadata.value, turn, t.thread.value, t.images.value,
                             t.config.value, t.startedAt, t.tokens, t.completed.value, t.steers, t.tools)];
      if t.diff.Some? {
        var counts := Diff.AcceptedLineFingerprints(t.diff.value, Diff.PLAIN);
        if counts.added != 0 || counts.deleted != 0 {
          out := out + [AcceptedLines(turn, t.thread.value, t.config.value.model, counts.added, counts.deleted)];
        }
      }
      turns := turns - {turn};
    }

    /** Stores a turn and checks it. */
    method StoreTurn(turn: string, t: Turn)
      modifies `turns, `out
      ensures out == old(out) + TurnEvents(old(View()), turn, t)
      ensures turns == if Ready(old(View()), t).Some? then old(turns) - {turn} else old(turns)[turn := t]
    {
      turns := turns[turn := t];
      assert Ready(View(), t) == Ready(old(View()), t);
      MaybeEmitTurnEvent(turn);
      assert old(turns)[turn := t] - {turn} == old(turns) - {turn};
    }

    method IngestTurnResolvedConfig(f: Fact)
      requires f.TurnResolvedConfig?
      modifies `turns, `out
      ensures View() == Next(old(View()), f) && out == old(out) + JoinEvents(old(View()), f)
    {
      var t := TurnAt(View(), f.turn);
      StoreTurn(f.turn, t.(thread := Some(f.config.thread), images := Some(f.config.images), config := Some(f.config)));
    }

    method IngestTurnTokenUsage(f: Fact)
      requires f.TurnTokenUsage?
      modifies `turns, `out
      ensures View() == Next(old(View()), f) && out == old(out) + JoinEvents(old(View()), f)
    {
      var t := TurnAt(View(), f.turn);
      StoreTurn(f.turn, t.(thread := Some(f.thread), tokens := Some(f.usage)));
    }

    method IngestTurnCompleted(f: Fact)
      requires f.TurnCompleted?
      modifies `turns, `out
      ensures View() == Next(old(View()), f) && out == old(out) + JoinEvents(old(View()), f)
    {
      var t := TurnAt(View(), f.turn);
      StoreTurn(f.turn, t.(completed := Some(CompletedOf(f.status, f.error, f.finished, f.durationMs))));
    }

    method IngestTurnProgress(f: Fact)
      requires f.TurnStarted? || f.TurnDiffUpdated?
      modifies `turns
      ensures View() == Next(old(View()), f)
    {
      var t := TurnAt(View(), f.turn);
      if f.TurnStarted? {
        turns := turns[f.turn := t.(startedAt := Unsigned(f.started))];
      } else {
        turns := turns[f.turn := t.(thread := Some(f.thread), diff := Some(f.diff))];
      }
    }

    method IngestRequest(f: Fact)
      requires f.TurnStartRequest? || f.TurnSteerRequest?
      modifies `requests
      ensures View() == Next(old(View()), f)
    {
      if f.TurnStartRequest? {
        requests := requests[(f.connection, f.request) := StartPending(f.thread, f.images)];
      } else {
        requests := requests[(f.connection, f.request) := SteerPending(f.thread, f.expected, f.images, f.createdAt)];
      }
    }

    /** Takes a pending request out of its table. */
    method TakeRequest(c: nat, id: RequestId) returns (request: Option<PendingRequest>)
      modifies `requests
      ensures request == Get(old(requests), (c, id)) && requests == old(requests) - {(c, id)}
    {
      request := Get(requests, (c, id));
      requests := requests - {(c, id)};
    }

    method IngestTurnStartResponse(f: Fact)
      requires f.TurnStartResponse?
      modifies `requests, `turns, `out
      ensures View() == Next(old(View()), f) && out == old(out) + JoinEvents(old(View()), f)
    {
      var pending := TakeRequest(f.connection, f.request);
      if pending.None? || !pending.value.StartPending? {
        return;
      }
      var t := TurnAt(View(), f.turn).(
        connection := Some(f.connection), thread := Some(pending.value.thread), images := Some(pending.value.images));
      assert Ready(View(), t) == Ready(old(View()), t);
      StoreTurn(f.turn, t);
    }

    method EmitTurnSteerEvent(c: nat, pending: PendingRequest, accepted: Option<string>, reason: Option<string>)
      requires pending.SteerPending?
      modifies `out
      ensures out == old(out) +
                     if c in connections && ThreadMetadata(View(), pending.thread).Some?
                     then [TurnSteer(connections[c], ThreadMetadata(View(), pending.thread).value, pending.thread,
                                     pending.expected, accepted, pending.images, reason, pending.createdAt)]
                     else []
    {
      if c !in connections {
        return;
      }
      var metadata := ThreadMetadata(View(), pending.thread);
      if metadata.None? {
        return;
      }
      out := out + [TurnSteer(connections[c], metadata.value, pending.thread, pending.expected, accepted,
                              pending.images, reason, pending.createdAt)];
    }

    method IngestTurnSteerResponse(f: Fact)
      requires f.TurnSteerResponse?
      modifies `requests, `turns, `out
      ensures View() == Next(old(View()), f) && out == old(out) + SteerEvents(old(View()), f)
    {
      var pending := TakeRequest(f.connection, f.request);
      if pending.None? || !pending.value.SteerPending? {
        return;
      }
      if f.turn in turns {
        turns := turns[f.turn := turns[f.turn].(steers := turns[f.turn].steers + 1)];
      }
      EmitTurnSteerEvent(f.connection, pending.value, Some(f.turn), None);
    }

    method IngestErrorResponse(f: Fact)
      requires f.ErrorResponse?
      modifies `requests, `out
      ensures View() == Next(old(View()), f) && out == old(out) + SteerEvents(old(View()), f)
    {
      var pending := TakeRequest(f.connection, f.request);
      if pending.None? || !pending.value.SteerPending? {
        return;
      }
      EmitTurnSteerEvent(f.connection, pending.value, None, f.reason);
    }

    // ----- tool items

    method IngestItemStarted(f: Fact)
      requires f.ItemStarted?
      modifies `started
      ensures View() == Next(old(View()), f)
    {
      if !Tracked(f.item) || f.atMs < 0 {
        return;
      }
      started := started[Key(f.thread, f.turn, f.item.id) := f.atMs];
    }

    method IngestItemCompleted(f: Fact)
      requires f.ItemCompleted?
      modifies `turns, `started, `summaries, `out
      ensures View() == Next(old(View()), f) && out == old(out) + ToolEvents(old(View()), f)
    {
      if !Tracked(f.item) || f.turn !in turns {
        return;
      }
      turns := turns[f.turn := turns[f.turn].(tools := Counted(turns[f.turn].tools, f.item))];
      var key := Key(f.thread, f.turn, f.item.id);
      if key !in started {
        assert started - {key} == started;
        return;
      }
      var startedAt := started[key];
      started := started - {key};
      if f.atMs < 0 {
        return;
      }
      var connection, metadata := ThreadConnection(View(), f.thread), ThreadMetadata(View(), f.thread);
      assert connection == ThreadConnection(old(View()), f.thread) && metadata == ThreadMetadata(old(View()), f.thread);
      if connection.None? || metadata.None? {
        return;
      }
      var end := TerminalOf(f.item);
      if end.Some? {
        out := out + [ToolItem(connection.value, metadata.value, key, f.item, end.value, startedAt, f.atMs, SummaryAt(View(), key))];
      }
      summaries := summaries - {key};
    }

    // ----- reviews

    method IngestServerRequest(f: Fact)
      requires f.CommandApproval? || f.FileChangeApproval? || f.PermissionsApproval?
      modifies `reviews
      ensures View() == Next(old(View()), f)
    {
      OpeningChanges(View(), f);
      var waiting := Opened(f);
      if waiting.Some? {
        reviews := reviews[waiting.value.0 := waiting.value.1];
      }
    }

    method RecordItemReviewSummary(key: Key, c: Conclusion)
      modifies `summaries
      ensures summaries == old(summaries)[key := Noted(SummaryAt(old(View()), key), c)]
    {
      var s := SummaryAt(View(), key);
      s := s.(reviews := s.reviews + 1);
      match c.reviewer {
        case Guardian => s := s.(guardian := s.guardian + 1);
        case User => s := s.(user := s.user + 1);
      }
      s := s.(last := Some(ApprovalOf(c)));
      s := s.(additional := s.additional || c.review.additional);
      s := s.(network := s.network || c.review.network);
      summaries := summaries[key := s];
    }

    method EmitReviewEvent(c: Conclusion)
      modifies `summaries, `out
      ensures summaries == if SummaryKey(c.review).Some?
                           then old(summaries)[SummaryKey(c.review).value := Noted(SummaryAt(old(View()), SummaryKey(c.review).value), c)]
                           else old(summaries)
      ensures out == old(out) +
                     if ThreadConnection(View(), c.review.thread).Some? && ThreadMetadata(View(), c.review.thread).Some?
                     then [ReviewDone(ThreadConnection(View(), c.review.thread).value, ThreadMetadata(View(), c.review.thread).value, c)]
                     else []
    {
      var key := SummaryKey(c.review);
      if key.Some? {
        RecordItemReviewSummary(key.value, c);
      }
      var connection, metadata := ThreadConnection(View(), c.review.thread), ThreadMetadata(View(), c.review.thread);
      if connection.Some? && metadata.Some? {
        out := out + [ReviewDone(connection.value, metadata.value, c)];
      }
    }

    method IngestAnswer(f: Fact)
      requires Answer(f).Some?
      modifies `reviews, `summaries, `out
      ensures View() == Next(old(View()), f) && out == old(out) + ReviewEvents(old(View()), f)
    {
      AnswerChanges(View(), f);
      AnswerConcludes(View(), f);
      var (id, at, status, resolution) := Answer(f).value;
      var pending := Get(reviews, id);
      reviews := reviews - {id};
      if pending.None? {
        return;
      }
      EmitReviewEvent(Conclusion(pending.value, User, status, resolution, at));
    }

    method IngestGuardianReviewCompleted(f: Fact)
      requires f.GuardianReviewCompleted?
      modifies `summaries, `out
      ensures View() == Next(old(View()), f) && out == old(out) + ReviewEvents(old(View()), f)
    {
      var status := GuardianResult(f.verdict);
      if status.None? || f.startedMs < 0 || f.completedMs < 0 {
        return;
      }
      var (subject, name, trigger) := GuardianSubject(f.action);
      EmitReviewEvent(Conclusion(
        Review(f.thread, f.turn, f.target, ByGuardian(f.review), subject, name, trigger, f.startedMs,
               AsksAdditional(f.action), AsksNetwork(f.action)),
        Guardian, status.value, Unresolved, f.completedMs));
    }

    // ----- all facts

    method IngestQuiet(f: Fact)
      requires !IsJoin(f) && !EndsReview(f) && !EndsRequest(f) && !IsThreadFact(f) && !f.ItemCompleted?
      modifies this
      ensures View() == Next(old(View()), f) && out == old(out)
    {
      match f
      case Initialize(_, _, _) => IngestInitialize(f);
      case TurnStartRequest(_, _, _, _) => IngestRequest(f);
      case TurnSteerRequest(_, _, _, _, _, _) => IngestRequest(f);
      case ItemStarted(_, _, _, _) => IngestItemStarted(f);
      case TurnStarted(_, _) => IngestTurnProgress(f);
      case TurnDiffUpdated(_, _, _) => IngestTurnProgress(f);
      case CommandApproval(_, _, _, _, _, _, _, _, _) => IngestServerRequest(f);
      case FileChangeApproval(_, _, _, _, _, _) => IngestServerRequest(f);
      case PermissionsApproval(_, _, _, _, _, _, _) => IngestServerRequest(f);
    }

    method IngestJoin(f: Fact)
      requires IsJoin(f)
      modifies this
      ensures View() == Next(old(View()), f) && out == old(out) + JoinEvents(old(View()), f)
    {
      match f
      case TurnResolvedConfig(_, _) => IngestTurnResolvedConfig(f);
      case TurnTokenUsage(_, _, _) => IngestTurnTokenUsage(f);
      case TurnStartResponse(_, _, _) => IngestTurnStartResponse(f);
      case TurnCompleted(_, _, _, _, _) => IngestTurnCompleted(f);
    }

    method IngestThreadFact(f: Fact)
      requires IsThreadFact(f)
      modifies this
      ensures View() == Next(old(View()), f) && out == old(out) + ThreadEvents(old(View()), f)
    {
      match f
      case ThreadResponse(_, _, _, _, _, _) => EmitThreadInitialized(f);
      case SubagentThreadStarted(_, _, _) => IngestSubagentThreadStarted(f);
      case CompactionDone(_, _) => IngestCompaction(f);
      case GuardianReviewed(_, _, _) => IngestGuardianReview(f);
    }

    /** Dispatches a fact to its handler. */
    method Ingest(f: Fact)
      modifies this
      ensures View() == Next(old(View()), f) && out == old(out) + Sent(old(View()), f)
    {
      SentSorts(View(), f);
      if IsJoin(f) {
        IngestJoin(f);
      } else if IsThreadFact(f) {
        IngestThreadFact(f);
      } else if f.TurnSteerResponse? {
        IngestTurnSteerResponse(f);
      } else if f.ErrorResponse? {
        IngestErrorResponse(f);
      } else if f.ItemCompleted? {
        IngestItemCompleted(f);
      } else if f.GuardianReviewCompleted? {
        IngestGuardianReviewCompleted(f);
      } else if EndsReview(f) {
        IngestAnswer(f);
      } else {
        IngestQuiet(f);
      }
    }

    /** Any run of the reducer: its tables and its events are functions of the facts. */
    method IngestAll(facts: seq<Fact>)
      requires View() == INITIAL && out == []
      modifies this
      ensures View() == Run(facts) && out == AllSent(facts)
    {
      assert facts[..0] == [];
      for n := 0 to |facts|
        invariant View() == Run(facts[..n]) && out == AllSent(facts[..n])
      {
        assert facts[..n + 1][..n] == facts[..n];
        Ingest(facts[n]);
      }
      assert facts[..|facts|] == facts;
    }
  }
}
