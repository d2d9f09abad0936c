/** What holds in every reachable state of the reducer, and of every run. */
module Accounting {
  import opened Wrappers
  import opened Seqs
  import opened Analytics

  // ----- the thread table

  ghost predicate IsWhole(s: State, thread: string) {
    thread in s.threads ==>
      && s.threads[thread].metadata.Some?
      && (s.threads[thread].connection.Some? ==> s.threads[thread].connection.value in s.connections)
  }

  ghost predicate ThreadsWhole(s: State) {
    forall thread :: IsWhole(s, thread)
  }

  lemma ThreadsStep(s: State, f: Fact)
    requires ThreadsWhole(s)
    ensures ThreadsWhole(Next(s, f))
  {
    forall thread
      ensures IsWhole(Next(s, f), thread)
    {
      assert IsWhole(s, thread);
      if f.SubagentThreadStarted? {
        var parent := ParentOf(f.parent, f.spawned);
        if parent.Some? {
          assert IsWhole(s, parent.value);
        }
      }
    }
  }

  /** In every reachable state a known thread has metadata, and its connection, own or inherited, is initialised. */
  lemma {:induction false} ThreadsAreWhole(facts: seq<Fact>)
    ensures ThreadsWhole(Run(facts))
  {
    if facts != [] {
      ThreadsAreWhole(facts[..|facts| - 1]);
      ThreadsStep(Run(facts[..|facts| - 1]), facts[|facts| - 1]);
    }
  }

  /** So a thread's context is missing only if the thread is unknown or belongs to no connection. */
  lemma ContextIsMissingIff(facts: seq<Fact>, thread: string)
    ensures ThreadMetadata(Run(facts), thread).None? <==> thread !in Run(facts).threads
    ensures ThreadConnection(Run(facts), thread).None? <==>
              thread !in Run(facts).threads || Run(facts).threads[thread].connection.None?
  {
    ThreadsAreWhole(facts);
    assert IsWhole(Run(facts), thread);
  }

  // ----- counting

  function CountFacts(facts: seq<Fact>, which: Fact -> bool): nat {
    if facts == [] then 0
    else CountFacts(facts[..|facts| - 1], which) + if which(facts[|facts| - 1]) then 1 else 0
  }

  function CountIn(events: seq<TrackEvent>, which: TrackEvent -> bool): nat {
    |Filter(events, which)|
  }

  /** How many events of a kind a run sends. */
  function CountSent(facts: seq<Fact>, which: TrackEvent -> bool): nat {
    CountIn(AllSent(facts), which)
  }

  lemma CountSentStep(facts: seq<Fact>, which: TrackEvent -> bool)
    requires facts != []
    ensures CountSent(facts, which) ==
            CountSent(facts[..|facts| - 1], which) + CountIn(Sent(Run(facts[..|facts| - 1]), facts[|facts| - 1]), which)
  {
    CountConcat(AllSent(facts[..|facts| - 1]), Sent(Run(facts[..|facts| - 1]), facts[|facts| - 1]), which);
  }

  lemma CountConcat(a: seq<TrackEvent>, b: seq<TrackEvent>, which: TrackEvent -> bool)
    ensures CountIn(a + b, which) == CountIn(a, which) + CountIn(b, which)
  {
    FilterAppend(a, b, which);
  }

  lemma {:induction false} CountNone(events: seq<TrackEvent>, which: TrackEvent -> bool)
    requires forall i :: 0 <= i < |events| ==> !which(events[i])
    ensures CountIn(events, which) == 0
  {
    if events != [] {
      CountNone(events[1..], which);
    }
  }

  lemma CountOther(events: seq<TrackEvent>, which: TrackEvent -> bool, sort: Sort, other: Sort)
    requires AllOf(events, other) && sort != other && forall e :: which(e) ==> SortOf(e) == sort
    ensures CountIn(events, which) == 0
  {
    CountNone(events, which);
  }

  lemma CountFive(a: seq<TrackEvent>, b: seq<TrackEvent>, c: seq<TrackEvent>, d: seq<TrackEvent>, e: seq<TrackEvent>,
                  which: TrackEvent -> bool)
    ensures CountIn(a + b + c + d + e, which) ==
            CountIn(a, which) + CountIn(b, which) + CountIn(c, which) + CountIn(d, which) + CountIn(e, which)
  {
    CountConcat(a + b + c + d, e, which);
    CountConcat(a + b + c, d, which);
    CountConcat(a + b, c, which);
    CountConcat(a, b, which);
  }

  lemma CountFiveSorts(a: seq<TrackEvent>, b: seq<TrackEvent>, c: seq<TrackEvent>, d: seq<TrackEvent>, e: seq<TrackEvent>,
                       which: TrackEvent -> bool, sort: Sort)
    requires AllOf(a, OfTurn) && AllOf(b, OfThread) && AllOf(c, OfSteer) && AllOf(d, OfReview) && AllOf(e, OfItem)
    requires forall x :: which(x) ==> SortOf(x) == sort
    ensures CountIn(a + b + c + d + e, which) ==
            match sort
            case OfTurn => CountIn(a, which)
            case OfThread => CountIn(b, which)
            case OfSteer => CountIn(c, which)
            case OfReview => CountIn(d, which)
            case OfItem => CountIn(e, which)
  {
    CountFive(a, b, c, d, e, which);
    if sort != OfTurn { CountOther(a, which, sort, OfTurn); }
    if sort != OfThread { CountOther(b, which, sort, OfThread); }
    if sort != OfSteer { CountOther(c, which, sort, OfSteer); }
    if sort != OfReview { CountOther(d, which, sort, OfReview); }
    if sort != OfItem { CountOther(e, which, sort, OfItem); }
  }

  /** Events of one sort are counted among the events of that sort. */
  lemma CountSort(s: State, f: Fact, which: TrackEvent -> bool, sort: Sort)
    requires forall x :: which(x) ==> SortOf(x) == sort
    ensures CountIn(Sent(s, f), which) ==
            match sort
            case OfTurn => CountIn(JoinEvents(s, f), which)
            case OfThread => CountIn(ThreadEvents(s, f), which)
            case OfSteer => CountIn(SteerEvents(s, f), which)
            case OfReview => CountIn(ReviewEvents(s, f), which)
            case OfItem => CountIn(ToolEvents(s, f), which)
  {
    JoinSort(s, f);
    ThreadSort(s, f);
    SteerSort(s, f);
    ReviewSort(s, f);
    ItemSort(s, f);
    CountFiveSorts(JoinEvents(s, f), ThreadEvents(s, f), SteerEvents(s, f), ReviewEvents(s, f), ToolEvents(s, f), which, sort);
  }

  // ----- one-shot consumption: reviews by the user

  /** The events about the user's review of an approval request. */
  predicate IsUserReview(e: TrackEvent, id: RequestId) {
    e.ReviewDone? && e.conclusion.review.id == ByUser(id)
  }

  function UserReviewOf(id: RequestId): TrackEvent -> bool {
    (e: TrackEvent) => IsUserReview(e, id)
  }

  predicate Opens(f: Fact, id: RequestId) {
    Opened(f).Some? && Opened(f).value.0 == id
  }

  function OpeningOf(id: RequestId): Fact -> bool {
    (f: Fact) => Opens(f, id)
  }

  /** A pending review is filed under the id of its request. */
  ghost predicate ReviewsFiled(s: State) {
    forall id :: id in s.reviews ==> s.reviews[id].id == ByUser(id)
  }

  lemma OpenedId(f: Fact)
    requires Opened(f).Some?
    ensures Opened(f).value.1.id == ByUser(Opened(f).value.0)
  {
  }

  lemma {:induction false} ReviewsAreFiled(facts: seq<Fact>)
    ensures ReviewsFiled(Run(facts))
  {
    if facts != [] {
      var s, f := Run(facts[..|facts| - 1]), facts[|facts| - 1];
      ReviewsAreFiled(facts[..|facts| - 1]);
      if Opened(f).Some? {
        OpenedId(f);
      }
      assert Run(facts).reviews == NextReviews(s, f);
    }
  }

  function PendingReview(s: State, id: RequestId): nat {
    if id in s.reviews then 1 else 0
  }

  lemma ReviewEventsOf(s: State, f: Fact, id: RequestId)
    requires ReviewsFiled(s)
    ensures CountIn(ReviewEvents(s, f), UserReviewOf(id)) <= 1
    ensures CountIn(ReviewEvents(s, f), UserReviewOf(id)) == 1 ==>
              id in s.reviews && Answer(f).Some? && Answer(f).value.0 == id
  {
  }

  lemma ReviewsSent(s: State, f: Fact, id: RequestId)
    ensures CountIn(Sent(s, f), UserReviewOf(id)) == CountIn(ReviewEvents(s, f), UserReviewOf(id))
  {
    CountSort(s, f, UserReviewOf(id), OfReview);
  }

  lemma ReviewTableStep(s: State, f: Fact, id: RequestId)
    ensures PendingReview(Next(s, f), id) <= PendingReview(s, id) + if Opens(f, id) then 1 else 0
    ensures Answer(f).Some? && Answer(f).value.0 == id ==> PendingReview(Next(s, f), id) == 0
  {
  }

  lemma UserReviewStep(s: State, f: Fact, id: RequestId)
    requires ReviewsFiled(s)
    ensures CountIn(Sent(s, f), UserReviewOf(id)) + PendingReview(Next(s, f), id) <=
            PendingReview(s, id) + if Opens(f, id) then 1 else 0
  {
    ReviewsSent(s, f, id);
    ReviewEventsOf(s, f, id);
    ReviewTableStep(s, f, id);
  }

  lemma OpensOrAnswers(f: Fact)
    ensures Opened(f).None? || Answer(f).None?
  {
  }

  /** Over every run a request is reviewed by the user at most as often as approval was asked for under its id. */
  lemma {:induction false} UserReviewsAreOneShot(facts: seq<Fact>, id: RequestId)
    ensures CountSent(facts, UserReviewOf(id)) + PendingReview(Run(facts), id) <= CountFacts(facts, OpeningOf(id))
  {
    if facts != [] {
      var init := facts[..|facts| - 1];
      UserReviewsAreOneShot(init, id);
      ReviewsAreFiled(init);
      UserReviewStep(Run(init), facts[|facts| - 1], id);
      CountSentStep(facts, UserReviewOf(id));
    }
  }

  // ----- one-shot consumption: tool items

  predicate IsItemOf(e: TrackEvent, key: Key) {
    e.ToolItem? && e.key == key
  }

  predicate Starts(f: Fact, key: Key) {
    f.ItemStarted? && Tracked(f.item) && f.atMs >= 0 && Key(f.thread, f.turn, f.item.id) == key
  }

  function ItemOf(key: Key): TrackEvent -> bool {
    (e: TrackEvent) => IsItemOf(e, key)
  }

  function StartOf(key: Key): Fact -> bool {
    (f: Fact) => Starts(f, key)
  }

  function PendingItem(s: State, key: Key): nat {
    if key in s.started then 1 else 0
  }

  lemma ToolEventsOf(s: State, f: Fact, key: Key)
    ensures CountIn(ToolEvents(s, f), ItemOf(key)) <= 1
    ensures CountIn(ToolEvents(s, f), ItemOf(key)) == 1 ==> Finished(s, f).Some? && Finished(s, f).value.0 == key
  {
  }

  lemma ItemsSent(s: State, f: Fact, key: Key)
    ensures CountIn(Sent(s, f), ItemOf(key)) == CountIn(ToolEvents(s, f), ItemOf(key))
  {
    CountSort(s, f, ItemOf(key), OfItem);
  }

  lemma ItemTableStep(s: State, f: Fact, key: Key)
    ensures PendingItem(Next(s, f), key) <= PendingItem(s, key) + if Starts(f, key) then 1 else 0
    ensures Finished(s, f).Some? && Finished(s, f).value.0 == key ==>
              PendingItem(s, key) == 1 && PendingItem(Next(s, f), key) == 0
  {
  }

  lemma ItemStep(s: State, f: Fact, key: Key)
    ensures CountIn(Sent(s, f), ItemOf(key)) + PendingItem(Next(s, f), key) <=
            PendingItem(s, key) + if Starts(f, key) then 1 else 0
  {
    ItemsSent(s, f, key);
    ToolEventsOf(s, f, key);
    ItemTableStep(s, f, key);
  }

  /** Over every run a tool item is reported at most as often as it was started. */
  lemma {:induction false} ItemsAreOneShot(facts: seq<Fact>, key: Key)
    ensures CountSent(facts, ItemOf(key)) + PendingItem(Run(facts), key) <= CountFacts(facts, StartOf(key))
  {
    if facts != [] {
      var init := facts[..|facts| - 1];
      ItemsAreOneShot(init, key);
      ItemStep(Run(init), facts[|facts| - 1], key);
      CountSentStep(facts, ItemOf(key));
    }
  }

  // ----- one-shot consumption: steering

  predicate AnswersSteer(f: Fact, c: nat, id: RequestId) {
    (f.TurnSteerResponse? || f.ErrorResponse?) && f.connection == c && f.request == id
  }

  predicate AsksSteer(f: Fact, c: nat, id: RequestId) {
    f.TurnSteerRequest? && f.connection == c && f.request == id
  }

  predicate IsSteer(e: TrackEvent) {
    e.TurnSteer?
  }

  function SteerOf(c: nat, id: RequestId): Fact -> bool {
    (f: Fact) => AsksSteer(f, c, id)
  }

  /** The steer events that a run sends on answers to one request. */
  function CountSteers(facts: seq<Fact>, c: nat, id: RequestId): nat {
    if facts == [] then 0
    else
      var init, f := facts[..|facts| - 1], facts[|facts| - 1];
      CountSteers(init, c, id) + if AnswersSteer(f, c, id) then CountIn(Sent(Run(init), f), IsSteer) else 0
  }

  function PendingSteer(s: State, c: nat, id: RequestId): nat {
    if (c, id) in s.requests && s.requests[(c, id)].SteerPending? then 1 else 0
  }

  lemma SteersSent(s: State, f: Fact)
    ensures CountIn(Sent(s, f), IsSteer) == CountIn(SteerEvents(s, f), IsSteer)
  {
    CountSort(s, f, IsSteer, OfSteer);
  }

  lemma SteerEventsOf(s: State, f: Fact)
    ensures CountIn(SteerEvents(s, f), IsSteer) <= 1
    ensures CountIn(SteerEvents(s, f), IsSteer) == 1 ==> Steered(s, f).Some?
  {
  }

  lemma SteerTableStep(s: State, f: Fact, c: nat, id: RequestId)
    ensures PendingSteer(Next(s, f), c, id) <= PendingSteer(s, c, id) + if AsksSteer(f, c, id) then 1 else 0
    ensures AnswersSteer(f, c, id) ==> PendingSteer(Next(s, f), c, id) == 0
    ensures AnswersSteer(f, c, id) && Steered(s, f).Some? ==> PendingSteer(s, c, id) == 1
  {
    assert Next(s, f).requests == NextRequests(s, f);
  }

  lemma SteerStep(s: State, f: Fact, c: nat, id: RequestId)
    ensures (if AnswersSteer(f, c, id) then CountIn(Sent(s, f), IsSteer) else 0) + PendingSteer(Next(s, f), c, id) <=
            PendingSteer(s, c, id) + if AsksSteer(f, c, id) then 1 else 0
  {
    SteersSent(s, f);
    SteerEventsOf(s, f);
    SteerTableStep(s, f, c, id);
  }

  /** Over every run a steer request is reported at most as often as it was made. */
  lemma {:induction false} SteersAreOneShot(facts: seq<Fact>, c: nat, id: RequestId)
    ensures CountSteers(facts, c, id) + PendingSteer(Run(facts), c, id) <= CountFacts(facts, SteerOf(c, id))
  {
    if facts != [] {
      var init := facts[..|facts| - 1];
      SteersAreOneShot(init, c, id);
      SteerStep(Run(init), facts[|facts| - 1], c, id);
    }
  }

  // ----- the reviews of an item

  /** The review that waits under a request id, told from the facts alone. */
  function Awaited(facts: seq<Fact>, id: RequestId): Option<Review> {
    if facts == [] then None
    else
      var f := facts[|facts| - 1];
      if Opens(f, id) then Some(Opened(f).value.1)
      else if Answer(f).Some? && Answer(f).value.0 == id then None
      else Awaited(facts[..|facts| - 1], id)
  }

  /** The pending reviews are those opened last under their ids and not answered since. */
  lemma {:induction false} PendingReviewsExact(facts: seq<Fact>, id: RequestId)
    ensures Get(Run(facts).reviews, id) == Awaited(facts, id)
  {
    if facts != [] {
      var init, f := facts[..|facts| - 1], facts[|facts| - 1];
      PendingReviewsExact(init, id);
      OpensOrAnswers(f);
      assert Run(facts).reviews == NextReviews(Run(init), f);
    }
  }

  /** A review counts for the item that it names, and only if it is about a command, a file change or an MCP call. */
  predicate CountsFor(r: Review, key: Key) {
    && r.thread == key.thread && r.turn == key.turn && r.item == Some(key.item)
    && (r.subject.OnCommand? || r.subject.OnFileChange? || r.subject.OnMcpToolCall?)
  }

  predicate Concerns(c: Option<Conclusion>, key: Key) {
    c.Some? && CountsFor(c.value.review, key)
  }

  /** What the end of a review means for its item. */
  function OutcomeOf(c: Conclusion): Approval {
    if c.status == Approved then
      if c.reviewer == Guardian then GuardianApproved
      else if c.resolution == SessionApproval then UserApprovedForSession else UserApproved
    else if c.status == Denied then
      if c.reviewer == Guardian then GuardianDenied else UserDenied
    else if c.reviewer == Guardian then GuardianAborted else UserAborted
  }

  /** The reviews that ended about an item since it was last cleared, in order. */
  function ReviewsOf(facts: seq<Fact>, key: Key): seq<Conclusion> {
    if facts == [] then []
    else
      var init, f := facts[..|facts| - 1], facts[|facts| - 1];
      var c := Concluded(Run(init), f);
      if Concerns(c, key) then ReviewsOf(init, key) + [c.value]
      else if Finished(Run(init), f).Some? && Finished(Run(init), f).value.0 == key then []
      else ReviewsOf(init, key)
  }

  predicate ByReviewer(c: Conclusion, r: Reviewer) {
    c.reviewer == r
  }

  function Of(r: Reviewer): Conclusion -> bool {
    (c: Conclusion) => ByReviewer(c, r)
  }

  predicate AnyAdditional(cs: seq<Conclusion>) {
    exists i :: 0 <= i < |cs| && cs[i].review.additional
  }

  predicate AnyNetwork(cs: seq<Conclusion>) {
    exists i :: 0 <= i < |cs| && cs[i].review.network
  }

  /** What a list of reviews amounts to. */
  function SummaryOf(cs: seq<Conclusion>): Summary {
    Summary(|cs|, |Filter(cs, Of(Guardian))|, |Filter(cs, Of(User))|,
            if cs == [] then None else Some(OutcomeOf(cs[|cs| - 1])), AnyAdditional(cs), AnyNetwork(cs))
  }

  lemma FlagsSnoc(cs: seq<Conclusion>, c: Conclusion)
    ensures AnyAdditional(cs + [c]) <==> AnyAdditional(cs) || c.review.additional
    ensures AnyNetwork(cs + [c]) <==> AnyNetwork(cs) || c.review.network
  {
    var all := cs + [c];
    assert all[|cs|] == c;
    if i :| 0 <= i < |cs| && cs[i].review.additional {
      assert all[i].review.additional;
    }
    if i :| 0 <= i < |cs| && cs[i].review.network {
      assert all[i].review.network;
    }
  }

  lemma OutcomeIs(c: Conclusion)
    ensures ApprovalOf(c) == OutcomeOf(c)
  {
  }

  lemma SummarySnoc(cs: seq<Conclusion>, c: Conclusion)
    ensures SummaryOf(cs + [c]) == Noted(SummaryOf(cs), c)
  {
    OutcomeIs(c);
    FilterAppend(cs, [c], Of(Guardian));
    FilterAppend(cs, [c], Of(User));
    FlagsSnoc(cs, c);
  }

  lemma KeyIs(r: Review, key: Key)
    ensures SummaryKey(r) == Some(key) <==> CountsFor(r, key)
  {
  }

  /** A review of permissions or of network access counts for no item. */
  lemma OtherReviewsCountForNone(facts: seq<Fact>, f: Fact, key: Key)
    requires Concluded(Run(facts), f).Some?
    requires var r := Concluded(Run(facts), f).value.review; r.subject.OnPermissions? || r.subject.OnNetworkAccess?
    ensures SummaryAt(Run(facts + [f]), key) == SummaryAt(Run(facts), key) && ReviewsOf(facts + [f], key) == ReviewsOf(facts, key)
  {
    assert (facts + [f])[..|facts|] == facts;
    SummaryStep(Run(facts), f, key);
    ConcludesOrFinishes(Run(facts), f);
  }

  lemma SummaryStep(s: State, f: Fact, key: Key)
    ensures SummaryAt(Next(s, f), key) ==
            if Concerns(Concluded(s, f), key) then Noted(SummaryAt(s, key), Concluded(s, f).value)
            else if Finished(s, f).Some? && Finished(s, f).value.0 == key then NO_REVIEWS
            else SummaryAt(s, key)
  {
    if Concluded(s, f).Some? {
      KeyIs(Concluded(s, f).value.review, key);
      ConcludesOrFinishes(s, f);
    }
  }

  lemma ConcludesOrFinishes(s: State, f: Fact)
    ensures Concluded(s, f).None? || Finished(s, f).None?
  {
  }

  /** In every reachable state an item's summary is that of exactly the reviews since it was last cleared. */
  lemma {:induction false} SummariesAreExact(facts: seq<Fact>, key: Key)
    ensures SummaryAt(Run(facts), key) == SummaryOf(ReviewsOf(facts, key))
  {
    if facts != [] {
      var init, f := facts[..|facts| - 1], facts[|facts| - 1];
      SummariesAreExact(init, key);
      SummaryStep(Run(init), f, key);
      if Concerns(Concluded(Run(init), f), key) {
        SummarySnoc(ReviewsOf(init, key), Concluded(Run(init), f).value);
      }
    }
  }

  /** So does the event of a finished tool item report them. */
  lemma ItemReportsItsReviews(facts: seq<Fact>, f: Fact, e: TrackEvent)
    requires e in ToolEvents(Run(facts), f)
    ensures e.ToolItem? && e.summary == SummaryOf(ReviewsOf(facts, e.key))
    ensures ReviewsOf(facts + [f], e.key) == []
  {
    SummariesAreExact(facts, e.key);
    ConcludesOrFinishes(Run(facts), f);
    assert (facts + [f])[..|facts|] == facts;
  }

  lemma {:induction false} EveryReviewHasAReviewer(cs: seq<Conclusion>)
    ensures SummaryOf(cs).reviews == SummaryOf(cs).guardian + SummaryOf(cs).user
  {
    if cs != [] {
      EveryReviewHasAReviewer(cs[1..]);
    }
  }

  lemma {:induction false} ReviewCountsAddUp(facts: seq<Fact>, key: Key)
    ensures SummaryAt(Run(facts), key).reviews == SummaryAt(Run(facts), key).guardian + SummaryAt(Run(facts), key).user
  {
    SummariesAreExact(facts, key);
    EveryReviewHasAReviewer(ReviewsOf(facts, key));
  }

  // ----- the tool counts of a turn

  predicate AddsUp(c: ToolCounts) {
    c.total == c.shell + c.file + c.mcp + c.dynamic + c.subagent + c.web + c.image
  }

  ghost predicate TurnsAddUp(s: State) {
    forall turn :: turn in s.turns ==> AddsUp(s.turns[turn].tools)
  }

  lemma CountedAddsUp(c: ToolCounts, item: Item)
    requires AddsUp(c)
    ensures AddsUp(Counted(c, item))
  {
  }

  lemma JoinedKeepsTools(s: State, f: Fact)
    requires Joined(s, f).Some?
    ensures Joined(s, f).value.1.tools == TurnAt(s, Joined(s, f).value.0).tools
  {
  }

  lemma ToolCountStep(s: State, f: Fact, turn: string)
    requires turn in s.turns ==> AddsUp(s.turns[turn].tools)
    ensures turn in NextTurns(s, f) ==> AddsUp(NextTurns(s, f)[turn].tools)
  {
    if Joined(s, f).Some? {
      JoinedKeepsTools(s, f);
    } else if f.ItemCompleted? && turn in s.turns {
      CountedAddsUp(s.turns[turn].tools, f.item);
    }
  }

  /** In every reachable state the total of a turn is the sum of its seven categories. */
  lemma {:induction false} ToolCountsAddUp(facts: seq<Fact>)
    ensures TurnsAddUp(Run(facts))
  {
    if facts != [] {
      var s, f := Run(facts[..|facts| - 1]), facts[|facts| - 1];
      ToolCountsAddUp(facts[..|facts| - 1]);
      forall turn | turn in NextTurns(s, f)
        ensures AddsUp(NextTurns(s, f)[turn].tools)
      {
        ToolCountStep(s, f, turn);
      }
    }
  }
}
