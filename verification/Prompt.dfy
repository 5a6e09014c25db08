// The governed prompt: recent and protected events, a freshly packed desk, and the
// last check that the whole request stays within its token budget.

module Prompt {
  import opened Results
  import opened Models
  import opened Collections
  import opened TextBudget
  import opened EventLog
  import opened Markup
  import opened Packing
  import RecentRing

  const MAX_CONTEXT_TOKENS := 128000

  datatype PromptBudget = PromptBudget(totalTokens: int, recentTokens: int, protectedTokens: int, maxBooks: int)
  {
    // What the governor's constructor accepts.
    predicate Accepted() {
      && 256 <= totalTokens <= MAX_CONTEXT_TOKENS
      && 64 <= recentTokens < totalTokens
      && 0 <= protectedTokens < totalTokens
      && 1 <= maxBooks <= MAX_RESULT_BOOKS
    }
  }

  datatype PromptError =
    | NoEvents
    | SystemPromptTooLarge
    | RefreshRejected         // a token budget or book count out of range
    | CapacityExhausted       // every remembered desk generation is needed
    | EmptyQuery
    | BudgetNotEnforced

  // ---- The library block ----

  function BaseMessages(systemPrompt: string): seq<Message> {
    if systemPrompt == "" then [] else [Message("system", systemPrompt)]
  }

  // `mode` tells a governed thread from a virtual session.
  datatype Frame = Frame(sessionId: string, mode: string, systemPrompt: string)
  {
    function LibraryBlock(working: WorkingSet): string {
      FormatLibraryContext(working.context, sessionId, working.refreshedAt, mode)
    }

    function SystemContent(working: WorkingSet): string {
      (if systemPrompt == "" then "" else systemPrompt + "\n\n") + LibraryBlock(working)
    }

    // The desk's block joins the system message, or becomes one.
    function Attached(working: WorkingSet, turns: seq<Message>): seq<Message> {
      if working.context == "" then BaseMessages(systemPrompt) + turns
      else [Message("system", SystemContent(working))] + turns
    }

    function EmptyWrapper(now: string): string {
      FormatLibraryContext("", sessionId, now, mode)
    }
  }

  lemma SystemContentLength(frame: Frame, working: WorkingSet)
    ensures |frame.SystemContent(working)|
         == |frame.SystemContent(working.(context := "", hits := [], tokenCount := 0))| + |working.context|
  {
    hide EscapeAttribute, EscapeText;
  }

  lemma OneMessage(message: Message, turns: seq<Message>)
    ensures MessageTokenCount([message] + turns) == EstimateTokens(message.content) + 4 + MessageTokenCount(turns)
  {
    assert ([message] + turns)[1..] == turns;
  }

  // Cutting the desk down by the overflow and eight more tokens brings the whole prompt back
  // within its budget, whatever the wrapper around the desk measures.
  lemma RepackSuffices(frame: Frame, total: int, turns: seq<Message>, before: WorkingSet, after: WorkingSet)
    requires MessageTokenCount(BaseMessages(frame.systemPrompt) + turns) <= total
    requires before.context != "" && MessageTokenCount(frame.Attached(before, turns)) > total
    requires after.refreshedAt == before.refreshedAt
    requires var overflow := MessageTokenCount(frame.Attached(before, turns)) - total;
             EstimateTokens(after.context) <= Max(0, EstimateTokens(before.context) - overflow - 8)
    ensures MessageTokenCount(frame.Attached(after, turns)) <= total
  {
    hide EstimateTokens, FormatLibraryContext, MessageTokenCount;
    if after.context != "" {
      SystemContentLength(frame, before);
      SystemContentLength(frame, after);
      assert frame.SystemContent(after.(context := "", hits := [], tokenCount := 0))
          == frame.SystemContent(before.(context := "", hits := [], tokenCount := 0));
      OneMessage(Message("system", frame.SystemContent(before)), turns);
      OneMessage(Message("system", frame.SystemContent(after)), turns);
    }
  }

  // ---- The reading desk's answer ----

  function Filter(hits: seq<Hit>, excluded: set<string>): (kept: seq<Hit>)
    ensures forall h :: h in kept <==> h in hits && h.record.id !in excluded
  {
    if hits == [] then []
    else
      var front, last := hits[..|hits| - 1], hits[|hits| - 1];
      assert hits == front + [last];
      Filter(front, excluded) + if last.record.id in excluded then [] else [last]
  }

  function Outside(excluded: set<string>): Hit -> bool {
    (h: Hit) => h.record.id !in excluded
  }

  // The hits kept stand where ranking put them, and are all those not excluded.
  lemma {:induction false} FilterKeepsRanking(hits: seq<Hit>, excluded: set<string>) returns (at: seq<nat>)
    ensures Keeps(hits, Outside(excluded), Filter(hits, excluded), at)
  {
    hide Keeps;
    if hits == [] {
      at := [];
      NothingKept(hits, Outside(excluded));
    } else {
      var front, last := hits[..|hits| - 1], hits[|hits| - 1];
      at := FilterKeepsRanking(front, excluded);
      KeepsOneMore(front, Outside(excluded), Filter(front, excluded), at, last);
      assert hits == front + [last];
      if last.record.id in excluded {
        assert Filter(hits, excluded) == Filter(front, excluded) + [] == Filter(front, excluded);
      } else {
        at := at + [|front|];
      }
    }
  }

  // The hits at these positions, in the order of ranking, before which only excluded ones are
  // left out.
  ghost predicate ShowsBest(ranked: seq<Hit>, excluded: set<string>, shown: seq<Hit>, at: seq<nat>) {
    && Ascending(at, |ranked|) && |at| == |shown|
    && (forall i :: 0 <= i < |at| ==> shown[i] == ranked[at[i]] && ranked[at[i]].record.id !in excluded)
    && (forall i, j :: 0 <= i < |at| && 0 <= j < at[i] && j !in at ==> ranked[j].record.id in excluded)
  }

  lemma FirstOfFiltered(ranked: seq<Hit>, excluded: set<string>, shown: seq<Hit>)
    requires shown <= Filter(ranked, excluded)
    ensures exists at :: ShowsBest(ranked, excluded, shown, at)
  {
    hide Filter;
    var at := FilterKeepsRanking(ranked, excluded);
    var first := at[..|shown|];
    forall i, j | 0 <= i < |first| && 0 <= j < first[i] && j !in first
      ensures ranked[j].record.id in excluded
    {
      assert Outside(excluded)(ranked[j]) ==> j in at;
    }
    assert ShowsBest(ranked, excluded, shown, first);
  }

  predicate RefreshAccepts(tokenBudget: int, topK: int) {
    0 < tokenBudget <= MAX_CONTEXT_TOKENS && 1 <= topK <= MAX_RESULT_BOOKS
  }

  // `ranked` is what retrieval found; `refreshedAt` the time of this refresh. `admitted` says
  // that the desk registry had room to begin it; the subject is looked at last, by retrieval.
  method Refresh(focus: string, ranked: seq<Hit>, tokenBudget: int, topK: int, excluded: set<string>, admitted: bool,
                 refreshedAt: string)
    returns (outcome: Result<WorkingSet, PromptError>)
    ensures var inRange := 1 <= tokenBudget <= 128000 && 1 <= topK <= 100;
            var blank := forall i :: 0 <= i < |focus| ==> IsSpace(focus[i]);
            && (outcome.Ok? <==> inRange && admitted && !blank)
            && (outcome.Err? ==>
                  outcome.error == if !inRange then RefreshRejected else if !admitted then CapacityExhausted
                                   else EmptyQuery)
    ensures outcome.Ok? ==>
              var desk := outcome.value;
              && IsDesk(desk, Filter(ranked, excluded), tokenBudget, topK)
              && desk.focus == focus && desk.refreshedAt == refreshedAt
              && exists at :: ShowsBest(ranked, excluded, desk.hits, at)
  {
    hide Blank, EstimateTokens, IsSpace, ShowsBest;
    if !RefreshAccepts(tokenBudget, topK) {
      return Err(RefreshRejected);
    }
    if !admitted {
      return Err(CapacityExhausted);
    }
    if Blank(focus) {
      return Err(EmptyQuery);
    }
    var ordered := Filter(ranked, excluded);
    var selected, context, packed := PackHits(ordered, tokenBudget, topK);
    FirstOfFiltered(ranked, excluded, selected);
    outcome := Ok(WorkingSet(focus, selected, context, EstimateTokens(context), tokenBudget, refreshedAt));
  }

  // A desk that shows the packing of `ordered`.
  ghost predicate IsDesk(working: WorkingSet, ordered: seq<Hit>, tokenBudget: int, topK: nat) {
    Packs(working, ordered, tokenBudget, topK) && working.tokenBudget == tokenBudget
  }

  ghost predicate Packs(working: WorkingSet, ordered: seq<Hit>, tokenBudget: int, topK: nat) {
    && working.tokenCount == EstimateTokens(working.context) <= tokenBudget
    && exists packed ::
         && IsPacking(Desk, ordered, tokenBudget, topK, packed)
         && packed.Shown() <= |ordered|
         && working.hits == ordered[..packed.Shown()]
         && working.context == Join(Rendered(Desk, ordered, packed))
  }

  function EmptyDesk(focus: string, now: string): WorkingSet {
    WorkingSet(focus, [], "", 0, 0, now)
  }

  // ---- The builder's steps ----

  function PickMessages(picks: seq<Pick>): (messages: seq<Message>)
    ensures |messages| == |picks|
  {
    seq(|picks|, i requires 0 <= i < |picks| => Message(picks[i].event.role, picks[i].content))
  }

  function PickEvents(picks: seq<Pick>): (events: seq<ContextEvent>)
    ensures |events| == |picks|
  {
    seq(|picks|, i requires 0 <= i < |picks| => picks[i].event)
  }

  function RecordIds(picks: seq<Pick>): set<string> {
    set p | p in picks && p.event.recordId != "" :: p.event.recordId
  }

  // The desk for a subject: packed from what retrieval ranked, without the records whose events
  // are already shown, or empty where there is nothing to look for or too little room.
  ghost predicate Retrieved(budget: PromptBudget, frame: Frame, subject: string, messages: seq<Message>,
                            selected: seq<Pick>, ranked: seq<Hit>, now: string, working: WorkingSet) {
    && working.focus == subject
    && if DeskWanted(budget, frame, subject, messages, now) then
         var left := LeftOver(budget, frame, messages, now);
         IsDesk(working, Filter(ranked, RecordIds(selected)), left, Max(0, budget.maxBooks))
       else working == EmptyDesk(subject, now)
  }

  // What the messages and an empty wrapper leave for the desk.
  function LeftOver(budget: PromptBudget, frame: Frame, messages: seq<Message>, now: string): nat {
    Max(0, budget.totalTokens - MessageTokenCount(messages) - EstimateTokens(frame.EmptyWrapper(now)) - 4)
  }

  // A desk is refreshed only for a subject, and only where eight tokens are left for it.
  predicate DeskWanted(budget: PromptBudget, frame: Frame, subject: string, messages: seq<Message>, now: string) {
    !Blank(subject) && LeftOver(budget, frame, messages, now) >= 8
  }

  method RetrieveContext(budget: PromptBudget, frame: Frame, subject: string, messages: seq<Message>,
                         selected: seq<Pick>, ranked: seq<Hit>, admitted: bool, now: string, refreshedAt: string)
    returns (outcome: Result<WorkingSet, PromptError>)
    requires budget.Accepted()
    ensures var left := budget.totalTokens - MessageTokenCount(messages) - EstimateTokens(frame.EmptyWrapper(now)) - 4;
            var wanted := left >= 8 && exists i :: 0 <= i < |subject| && !IsSpace(subject[i]);
            && DeskWanted(budget, frame, subject, messages, now) == wanted
            && (outcome.Ok? <==> (wanted ==> admitted))
            && (outcome.Err? ==> outcome.error == CapacityExhausted)
            && (outcome.Ok? ==>
                  if wanted then
                    && outcome.value.tokenBudget == left && EstimateTokens(outcome.value.context) <= left
                    && outcome.value.refreshedAt == refreshedAt
                  else outcome.value.hits == [] && outcome.value.context == "" && outcome.value.refreshedAt == now)
    ensures outcome.Ok? ==>
              && Retrieved(budget, frame, subject, messages, selected, ranked, now, outcome.value)
              && outcome.value.focus == subject
              && var shown := set p | p in selected && p.event.recordId != "" :: p.event.recordId;
                 exists at :: ShowsBest(ranked, shown, outcome.value.hits, at)
  {
    hide EstimateTokens, Frame.EmptyWrapper, MessageTokenCount, Blank, IsSpace, IsPacking, Join, Rendered, ShowsBest;
    var deskBudget := LeftOver(budget, frame, messages, now);
    if !Blank(subject) && deskBudget >= 8 {
      outcome := Refresh(subject, ranked, deskBudget, budget.maxBooks, RecordIds(selected), admitted, refreshedAt);
    } else {
      NoneShown(ranked, RecordIds(selected));
      outcome := Ok(EmptyDesk(subject, now));
    }
    assert RecordIds(selected) == set p | p in selected && p.event.recordId != "" :: p.event.recordId;
  }

  // Showing fewer from the end leaves the rest as it was.
  lemma FewerShown(ranked: seq<Hit>, excluded: set<string>, shown: seq<Hit>, fewer: seq<Hit>)
    requires (exists at :: ShowsBest(ranked, excluded, shown, at)) && fewer <= shown
    ensures exists at :: ShowsBest(ranked, excluded, fewer, at)
  {
    var at :| ShowsBest(ranked, excluded, shown, at);
    var first := at[..|fewer|];
    forall i, j | 0 <= i < |first| && 0 <= j < first[i] && j !in first
      ensures ranked[j].record.id in excluded
    {
      assert j !in at;
    }
    assert ShowsBest(ranked, excluded, fewer, first);
  }

  lemma NoneShown(ranked: seq<Hit>, excluded: set<string>)
    ensures exists at :: ShowsBest(ranked, excluded, [], at)
  {
    assert ShowsBest(ranked, excluded, [], []);
  }

  method AttachContext(frame: Frame, messages: seq<Message>, working: WorkingSet, ghost turns: seq<Message>)
    returns (attached: seq<Message>)
    requires messages == BaseMessages(frame.systemPrompt) + turns
    ensures attached == frame.Attached(working, turns)
  {
    if working.context == "" {
      return messages;
    }
    var libraryBlock := frame.LibraryBlock(working);
    hide FormatLibraryContext;
    if frame.systemPrompt != "" {
      attached := messages[0 := Message("system", frame.systemPrompt + "\n\n" + libraryBlock)];
    } else {
      assert "" + libraryBlock == libraryBlock;
      attached := [Message("system", libraryBlock)] + messages;
    }
  }

  // Holds for every desk at all, however its text relates to its hits or to any budget.
  method EnforceBudget(total: int, frame: Frame, messages: seq<Message>, working: WorkingSet, ghost turns: seq<Message>)
    returns (enforced: seq<Message>, final: WorkingSet, outcome: Result<nat, PromptError>)
    requires messages == frame.Attached(working, turns)
    requires MessageTokenCount(BaseMessages(frame.systemPrompt) + turns) <= total
    ensures outcome == Ok(MessageTokenCount(enforced)) && MessageTokenCount(enforced) <= total
    ensures enforced == frame.Attached(final, turns)
    ensures final.hits <= working.hits && final.focus == working.focus && final.refreshedAt == working.refreshedAt
    ensures MessageTokenCount(messages) <= total ==> final == working && enforced == messages
    ensures MessageTokenCount(messages) > total ==>
              var target := Max(0, EstimateTokens(working.context) - (MessageTokenCount(messages) - total) - 8);
              Packs(final, working.hits, target, Max(1, |working.hits|))
  {
    hide FormatLibraryContext, EstimateTokens, MessageTokenCount, IsPacking, Rendered, Join;
    enforced, final := messages, working;
    var tokenCount := MessageTokenCount(messages);
    if tokenCount > total && working.context != "" {
      var overflow := tokenCount - total;
      var target := Max(0, EstimateTokens(working.context) - overflow - 8);
      var selected, context, packed := PackHits(working.hits, target, Max(1, |working.hits|));
      final := working.(hits := selected, context := context, tokenCount := EstimateTokens(context));
      RepackSuffices(frame, total, turns, working, final);
      if final.context != "" {
        var libraryBlock := frame.LibraryBlock(final);
        if frame.systemPrompt != "" {
          enforced := messages[0 := Message("system", frame.systemPrompt + "\n\n" + libraryBlock)];
        } else {
          assert "" + libraryBlock == libraryBlock;
          enforced := messages[0 := Message("system", libraryBlock)];
        }
      } else if frame.systemPrompt != "" {
        enforced := messages[0 := Message("system", frame.systemPrompt)];
      } else {
        enforced := messages[1..];
      }
      assert enforced == frame.Attached(final, turns);
      tokenCount := MessageTokenCount(enforced);
    }
    if tokenCount > total {
      return enforced, final, Err(BudgetNotEnforced);
    }
    outcome := Ok(tokenCount);
  }

  // ---- The builder ----

  // What is left once the system prompt and a margin are set aside.
  function Available(budget: PromptBudget, baseTokens: nat): int {
    budget.totalTokens - baseTokens - 32
  }

  function RecentCap(budget: PromptBudget, available: nat): int {
    var spared := Min(budget.recentTokens, Max(64, available / 2));
    var protectedReserve := Min(budget.protectedTokens, Max(0, available - spared));
    Min(budget.recentTokens, available - protectedReserve)
  }

  function PromptEvents(snapshot: seq<ContextEvent>, log: seq<ContextEvent>): seq<ContextEvent> {
    if snapshot != [] then snapshot else RecentRing.LastRows(log, 256)
  }

  function EventIds(picks: seq<Pick>): set<string> {
    set p | p in picks :: p.event.eventId
  }

  // The newest user turn, or the newest event if no user spoke.
  ghost predicate IsSubject(events: seq<ContextEvent>, focus: Option<string>, subject: string)
    requires events != []
  {
    match focus
    case Some(f) => subject == f
    case None =>
      || (subject == events[|events| - 1].content && forall i :: 0 <= i < |events| ==> events[i].role != "user")
      || exists i :: 0 <= i < |events| && events[i].role == "user" && subject == events[i].content
           && forall j :: i < j < |events| ==> events[j].role != "user"
  }

  method Subject(events: seq<ContextEvent>, focus: Option<string>) returns (subject: string)
    requires events != []
    ensures IsSubject(events, focus, subject)
  {
    if focus.Some? {
      return focus.value;
    }
    var i := |events|;
    while i > 0
      invariant 0 <= i <= |events|
      invariant forall j :: i <= j < |events| ==> events[j].role != "user"
    {
      i := i - 1;
      if events[i].role == "user" {
        return events[i].content;
      }
    }
    return events[|events| - 1].content;
  }

  lemma {:induction false} PickCost(picks: seq<Pick>)
    ensures MessageTokenCount(PickMessages(picks)) == TotalCost(picks)
  {
    hide EstimateTokens;
    if picks != [] {
      PickCost(picks[1..]);
      assert PickMessages(picks)[1..] == PickMessages(picks[1..]);
    }
  }

  lemma {:induction false} ReverseCost(picks: seq<Pick>)
    ensures TotalCost(Reverse(picks)) == TotalCost(picks)
  {
    if picks != [] {
      ReverseCost(picks[1..]);
      assert Reverse(picks) == Reverse(picks[1..]) + [picks[0]];
      TotalCostSnoc(Reverse(picks[1..]), picks[0]);
    }
  }

  lemma {:induction false} WhereKeepsDistinct(events: seq<ContextEvent>, protectedOnly: bool, before: Option<nat>)
    requires RecentRing.DistinctIds(events)
    ensures RecentRing.DistinctIds(Where(events, protectedOnly, before))
  {
    if events != [] {
      WhereKeepsDistinct(events[1..], protectedOnly, before);
      WhereMembers(events[1..], protectedOnly, before);
      var rest := Where(events[1..], protectedOnly, before);
      forall i | 0 <= i < |rest|
        ensures rest[i].eventId != events[0].eventId
      {
        assert rest[i] in events[1..];
      }
    }
  }

  lemma {:induction false} CandidatesKeepDistinct(events: seq<ContextEvent>, excluded: set<string>)
    requires RecentRing.DistinctIds(events)
    ensures RecentRing.DistinctIds(Candidates(events, excluded))
  {
    if events != [] {
      CandidatesKeepDistinct(events[1..], excluded);
      CandidatesAreEvents(events[1..], |events| - 1, excluded);
      assert events[1..][..|events| - 1] == events[1..];
      var rest := Candidates(events[1..], excluded);
      forall i | 0 <= i < |rest|
        ensures rest[i].eventId != events[0].eventId
      {
        assert rest[i] in events[1..];
      }
    }
  }

  // A greedy choice among distinct candidates repeats none of them.
  lemma PicksAreDistinct(candidates: seq<ContextEvent>, tokenBudget: int, selected: seq<Pick>)
    requires RecentRing.DistinctIds(candidates) && IsGreedy(candidates, tokenBudget, Reverse(selected))
    ensures RecentRing.DistinctIds(PickEvents(selected))
  {
    hide TotalCost, Shown;
    var picks := Reverse(selected);
    forall i | 0 <= i < |selected|
      ensures selected[i].event == candidates[|selected| - 1 - i]
    {
      assert selected[i] == picks[|selected| - 1 - i];
    }
  }

  lemma NoEventTwice(recent: seq<Pick>, protectedPicks: seq<Pick>)
    requires RecentRing.DistinctIds(PickEvents(recent)) && RecentRing.DistinctIds(PickEvents(protectedPicks))
    requires forall p :: p in protectedPicks ==> p.event.eventId !in EventIds(recent)
    ensures RecentRing.DistinctIds(PickEvents(protectedPicks + recent))
  {
    var all, n := PickEvents(protectedPicks + recent), |protectedPicks|;
    forall i, j | 0 <= i < j < |all|
      ensures all[i].eventId != all[j].eventId
    {
      if j < n {
        assert all[i] == PickEvents(protectedPicks)[i] && all[j] == PickEvents(protectedPicks)[j];
      } else if i < n {
        assert protectedPicks[i] in protectedPicks && recent[j - n] in recent;
      } else {
        assert all[i] == PickEvents(recent)[i - n] && all[j] == PickEvents(recent)[j - n];
      }
    }
  }

  datatype GovernedPrompt = GovernedPrompt(
    messages: seq<Message>,
    tokenCount: nat,
    recent: seq<Pick>,
    protectedPicks: seq<Pick>,
    desk: WorkingSet)

  // The two greedy selections a prompt makes.
  ghost predicate Selects(budget: PromptBudget, events: seq<ContextEvent>, log: seq<ContextEvent>, available: nat,
                          recent: seq<Pick>, protectedPicks: seq<Pick>) {
    var protectedCap := Min(budget.protectedTokens, available - TotalCost(Reverse(recent)));
    var protectedEvents := Where(Reverse(log), true, None);
    && IsGreedy(Reverse(events), RecentCap(budget, available), Reverse(recent))
    && IsGreedy(Candidates(protectedEvents, EventIds(recent)), protectedCap, Reverse(protectedPicks))
  }

  // The selections take at most what was available, so the turns fit beside the base messages.
  lemma TurnsFit(budget: PromptBudget, frame: Frame, events: seq<ContextEvent>, log: seq<ContextEvent>,
                 recent: seq<Pick>, protectedPicks: seq<Pick>)
    requires budget.Accepted()
    requires var available := Available(budget, MessageTokenCount(BaseMessages(frame.systemPrompt)));
             available >= 0 && Selects(budget, events, log, available, recent, protectedPicks)
    ensures MessageTokenCount(BaseMessages(frame.systemPrompt) + PickMessages(protectedPicks + recent))
         <= budget.totalTokens - 32
  {
    var base := BaseMessages(frame.systemPrompt);
    hide BaseMessages, EstimateTokens, MessageTokenCount, TotalCost, Reverse, Shown;
    assert PickMessages(protectedPicks + recent) == PickMessages(protectedPicks) + PickMessages(recent);
    MessageTokenCountConcat(PickMessages(protectedPicks), PickMessages(recent));
    MessageTokenCountConcat(base, PickMessages(protectedPicks + recent));
    PickCost(protectedPicks);
    PickCost(recent);
    ReverseCost(protectedPicks);
    ReverseCost(recent);
  }

  lemma LogContinues(log: seq<ContextEvent>)
    requires Ordered(log)
    ensures Continues(log, log)
  {
  }

  // Recent events first; protected ones share what the recent ones left over.
  method SelectEvents(budget: PromptBudget, events: seq<ContextEvent>, log: seq<ContextEvent>, available: nat,
                      pageSize: int)
    returns (recent: seq<Pick>, protectedPicks: seq<Pick>)
    requires budget.Accepted() && 1 <= pageSize <= 1024
    requires RecentRing.DistinctIds(events) && forall e :: e in events ==> WellCounted(e)
    requires Ordered(log) && RecentRing.DistinctIds(log) && forall e :: e in log ==> WellCounted(e)
    ensures Selects(budget, events, log, available, recent, protectedPicks)
    ensures RecentRing.DistinctIds(PickEvents(protectedPicks + recent))
  {
    hide EstimateTokens, WellCounted, TotalCost, IsGreedy, Candidates, Where, Reverse, Ordered,
      RecentRing.DistinctIds, EventIds, RecentCap, PickEvents;
    var recentTokens;
    recent, recentTokens := SelectEventTail(events, RecentCap(budget, available), {});
    NothingExcluded(Reverse(events));
    LogContinues(log);
    var newestFirst, _ := IterThreadEventsDescending(log, (p: nat) => log, true, pageSize);
    ListingFacts(events, log, newestFirst.value);
    var protectedCap := Min(budget.protectedTokens, available - recentTokens);
    var protectedTokens;
    protectedPicks, protectedTokens := SelectDescendingEvents(newestFirst.value, protectedCap, EventIds(recent));
    assert forall p :: p in protectedPicks ==> p.event.eventId !in EventIds(recent);
    DistinctSelections(events, newestFirst.value, recent, protectedPicks, RecentCap(budget, available), protectedCap);
  }

  // The desk is asked for what the messages leave over, attached, and held to the budget.
  method Assemble(budget: PromptBudget, frame: Frame, subject: string, base: seq<Message>, selected: seq<Pick>,
                  ranked: seq<Hit>, admitted: bool, now: string, refreshedAt: string)
    returns (outcome: Result<(seq<Message>, nat, WorkingSet), PromptError>)
    requires budget.Accepted() && base == BaseMessages(frame.systemPrompt)
    requires MessageTokenCount(base + PickMessages(selected)) <= budget.totalTokens
    ensures match outcome
            case Err(error) =>
              && error == CapacityExhausted && !admitted
              && DeskWanted(budget, frame, subject, base + PickMessages(selected), now)
            case Ok((messages, tokenCount, desk)) =>
              && (DeskWanted(budget, frame, subject, base + PickMessages(selected), now) ==> admitted)
              && messages == frame.Attached(desk, PickMessages(selected))
              && FromDesk(budget, frame, subject, selected, ranked, now, desk)
              && tokenCount == MessageTokenCount(messages) <= budget.totalTokens
              && var shown := set p | p in selected && p.event.recordId != "" :: p.event.recordId;
                 exists at :: ShowsBest(ranked, shown, desk.hits, at)
  {
    hide BaseMessages, MessageTokenCount, EstimateTokens, Blank, Frame.Attached, IsDesk, Packs, Frame.EmptyWrapper,
      RecordIds, PickMessages, Retrieved, DeskWanted, ShowsBest;
    var plain := base + PickMessages(selected);
    var refreshed := RetrieveContext(budget, frame, subject, plain, selected, ranked, admitted, now, refreshedAt);
    if refreshed.Err? {
      return Err(refreshed.error);
    }
    var attached := AttachContext(frame, plain, refreshed.value, PickMessages(selected));
    var enforced, final, tokenCount :=
      EnforceBudget(budget.totalTokens, frame, attached, refreshed.value, PickMessages(selected));
    FewerShown(ranked, set p | p in selected && p.event.recordId != "" :: p.event.recordId, refreshed.value.hits,
               final.hits);
    assert Retrieved(budget, frame, subject, plain, selected, ranked, now, refreshed.value);
    outcome := Ok((enforced, tokenCount.value, final));
  }

  // What the prompt shows is the retrieved desk, shortened only if the whole did not fit.
  ghost predicate FromDesk(budget: PromptBudget, frame: Frame, subject: string, selected: seq<Pick>, ranked: seq<Hit>,
                           now: string, desk: WorkingSet) {
    var plain := BaseMessages(frame.systemPrompt) + PickMessages(selected);
    exists retrieved ::
      && Retrieved(budget, frame, subject, plain, selected, ranked, now, retrieved)
      && desk.hits <= retrieved.hits && desk.focus == subject
      && (MessageTokenCount(frame.Attached(retrieved, PickMessages(selected))) <= budget.totalTokens ==>
            desk == retrieved)
  }

  // Inputs leave only one pair of selections and one subject.
  lemma SelectionsAreUnique(budget: PromptBudget, events: seq<ContextEvent>, log: seq<ContextEvent>, available: nat,
                            recent: seq<Pick>, protectedPicks: seq<Pick>, recent': seq<Pick>,
                            protectedPicks': seq<Pick>)
    requires Selects(budget, events, log, available, recent, protectedPicks)
    requires Selects(budget, events, log, available, recent', protectedPicks')
    ensures recent == recent' && protectedPicks == protectedPicks'
  {
    hide IsGreedy, Candidates, Where, TotalCost;
    GreedyIsUnique(Reverse(events), RecentCap(budget, available), Reverse(recent), Reverse(recent'));
    SameReverse(recent, recent');
    var protectedCap := Min(budget.protectedTokens, available - TotalCost(Reverse(recent)));
    GreedyIsUnique(Candidates(Where(Reverse(log), true, None), EventIds(recent)), protectedCap,
                   Reverse(protectedPicks), Reverse(protectedPicks'));
    SameReverse(protectedPicks, protectedPicks');
  }

  lemma SameReverse(a: seq<Pick>, b: seq<Pick>)
    requires Reverse(a) == Reverse(b)
    ensures a == b
  {
    forall i | 0 <= i < |a|
      ensures a[i] == b[i]
    {
      assert Reverse(a)[|a| - 1 - i] == Reverse(b)[|a| - 1 - i];
    }
  }

  lemma SubjectIsUnique(events: seq<ContextEvent>, focus: Option<string>, a: string, b: string)
    requires events != [] && IsSubject(events, focus, a) && IsSubject(events, focus, b)
    ensures a == b
  {
  }

  // The selections and the subject call for a desk.
  ghost predicate DeskRequested(budget: PromptBudget, frame: Frame, events: seq<ContextEvent>, log: seq<ContextEvent>,
                                focus: Option<string>, now: string)
    requires events != []
  {
    var base := BaseMessages(frame.systemPrompt);
    exists recent, protectedPicks, subject ::
      && Selects(budget, events, log, Max(0, Available(budget, MessageTokenCount(base))), recent, protectedPicks)
      && IsSubject(events, focus, subject)
      && DeskWanted(budget, frame, subject, base + PickMessages(protectedPicks + recent), now)
  }

  lemma DeskRequestedBy(budget: PromptBudget, frame: Frame, events: seq<ContextEvent>, log: seq<ContextEvent>,
                        focus: Option<string>, now: string, recent: seq<Pick>, protectedPicks: seq<Pick>,
                        subject: string)
    requires events != [] && Available(budget, MessageTokenCount(BaseMessages(frame.systemPrompt))) >= 0
    requires Selects(budget, events, log, Available(budget, MessageTokenCount(BaseMessages(frame.systemPrompt))),
                     recent, protectedPicks)
    requires IsSubject(events, focus, subject)
    ensures var plain := BaseMessages(frame.systemPrompt) + PickMessages(protectedPicks + recent);
            DeskRequested(budget, frame, events, log, focus, now) <==> DeskWanted(budget, frame, subject, plain, now)
  {
    hide Selects, IsSubject, DeskWanted, BaseMessages, MessageTokenCount, PickMessages;
    var base := BaseMessages(frame.systemPrompt);
    var available := Available(budget, MessageTokenCount(base));
    if DeskRequested(budget, frame, events, log, focus, now) {
      var r, p, s :| && Selects(budget, events, log, available, r, p) && IsSubject(events, focus, s)
                     && DeskWanted(budget, frame, s, base + PickMessages(p + r), now);
      SelectionsAreUnique(budget, events, log, available, recent, protectedPicks, r, p);
      SubjectIsUnique(events, focus, subject, s);
    }
  }

  // The requests that are refused, and why; every other one is answered.
  ghost function Refusal(budget: PromptBudget, frame: Frame, events: seq<ContextEvent>, log: seq<ContextEvent>,
                         focus: Option<string>, admitted: bool, now: string): Option<PromptError> {
    if events == [] then Some(NoEvents)
    else if MessageTokenCount(BaseMessages(frame.systemPrompt)) + 64 >= budget.totalTokens then
      Some(SystemPromptTooLarge)
    else if !admitted && DeskRequested(budget, frame, events, log, focus, now) then Some(CapacityExhausted)
    else None
  }

  // Two renderings of the clock are read: one for the estimate of the wrapper, one by the desk.
  // `admitted` says that the desk registry has room to begin a refresh.
  method Build(budget: PromptBudget, frame: Frame, snapshot: seq<ContextEvent>, log: seq<ContextEvent>,
               focus: Option<string>, ranked: seq<Hit>, pageSize: int, admitted: bool, now: string, refreshedAt: string)
    returns (outcome: Result<GovernedPrompt, PromptError>)
    requires budget.Accepted() && 1 <= pageSize <= 1024
    requires RecentRing.DistinctIds(snapshot) && forall e :: e in snapshot ==> WellCounted(e)
    requires Ordered(log) && RecentRing.DistinctIds(log) && forall e :: e in log ==> WellCounted(e)
    ensures var events := if snapshot != [] then snapshot else log[Max(0, |log| - 256)..];
            var baseTokens := if frame.systemPrompt == "" then 0 else EstimateTokens(frame.systemPrompt) + 4;
            && (outcome == Err(NoEvents) <==> events == [])
            && (outcome == Err(SystemPromptTooLarge) <==> events != [] && baseTokens + 64 >= budget.totalTokens)
            && (outcome == Err(CapacityExhausted) <==>
                  && events != [] && baseTokens + 64 < budget.totalTokens
                  && !admitted && DeskRequested(budget, frame, events, log, focus, now))
            && (outcome.Ok? ==> baseTokens == MessageTokenCount(BaseMessages(frame.systemPrompt)))
    ensures var events := if snapshot != [] then snapshot else log[Max(0, |log| - 256)..];
            var baseTokens := MessageTokenCount(BaseMessages(frame.systemPrompt));
            match outcome
            case Err(error) => Refusal(budget, frame, events, log, focus, admitted, now) == Some(error)
            case Ok(prompt) =>
              var selected := prompt.protectedPicks + prompt.recent;
              && Refusal(budget, frame, events, log, focus, admitted, now) == None
              && events != [] && baseTokens + 64 < budget.totalTokens
              && prompt.tokenCount == MessageTokenCount(prompt.messages) <= budget.totalTokens
              && Selects(budget, events, log, Available(budget, baseTokens), prompt.recent, prompt.protectedPicks)
              && prompt.messages == frame.Attached(prompt.desk, PickMessages(selected))
              && RecentRing.DistinctIds(PickEvents(selected))
              && IsSubject(events, focus, prompt.desk.focus)
              && FromDesk(budget, frame, prompt.desk.focus, selected, ranked, now, prompt.desk)
              && var shown := set p | p in selected && p.event.recordId != "" :: p.event.recordId;
                 exists at :: ShowsBest(ranked, shown, prompt.desk.hits, at)
  {
    hide BaseMessages, MessageTokenCount, EstimateTokens, RecentRing.LastRows, WellCounted, Selects, Blank,
      Frame.Attached, Ordered, IsDesk, Frame.EmptyWrapper, PickMessages, IsSubject, FromDesk, DeskWanted, DeskRequested,
      ShowsBest;
    var events := PromptEvents(snapshot, log);
    LastRowsAre(snapshot, log);
    BaseCost(frame.systemPrompt);
    if events == [] {
      return Err(NoEvents);
    }
    EventsAreCounted(snapshot, log);
    hide RecentRing.DistinctIds, PromptEvents;
    var base := BaseMessages(frame.systemPrompt);
    var baseTokens := MessageTokenCount(base);
    if baseTokens + 64 >= budget.totalTokens {
      return Err(SystemPromptTooLarge);
    }
    var recent, protectedPicks := SelectEvents(budget, events, log, Available(budget, baseTokens), pageSize);
    TurnsFit(budget, frame, events, log, recent, protectedPicks);
    var selected := protectedPicks + recent;
    var subject := Subject(events, focus);
    DeskRequestedBy(budget, frame, events, log, focus, now, recent, protectedPicks, subject);
    var assembled := Assemble(budget, frame, subject, base, selected, ranked, admitted, now, refreshedAt);
    if assembled.Err? {
      return Err(assembled.error);
    }
    var (messages, tokenCount, desk) := assembled.value;
    assert desk.focus == subject by { DeskKeepsSubject(budget, frame, subject, selected, ranked, now, desk); }
    outcome := Ok(GovernedPrompt(messages, tokenCount, recent, protectedPicks, desk));
  }

  lemma LastRowsAre(snapshot: seq<ContextEvent>, log: seq<ContextEvent>)
    ensures PromptEvents(snapshot, log) == if snapshot != [] then snapshot else log[Max(0, |log| - 256)..]
  {
  }

  lemma BaseCost(systemPrompt: string)
    ensures MessageTokenCount(BaseMessages(systemPrompt))
         == if systemPrompt == "" then 0 else EstimateTokens(systemPrompt) + 4
  {
    hide EstimateTokens;
    if systemPrompt != "" {
      assert [Message("system", systemPrompt)][1..] == [];
    }
  }

  lemma EventsAreCounted(snapshot: seq<ContextEvent>, log: seq<ContextEvent>)
    requires RecentRing.DistinctIds(snapshot) && forall e :: e in snapshot ==> WellCounted(e)
    requires RecentRing.DistinctIds(log) && forall e :: e in log ==> WellCounted(e)
    ensures RecentRing.DistinctIds(PromptEvents(snapshot, log))
    ensures forall e :: e in PromptEvents(snapshot, log) ==> WellCounted(e)
  {
    hide WellCounted;
  }

  lemma DeskKeepsSubject(budget: PromptBudget, frame: Frame, subject: string, selected: seq<Pick>, ranked: seq<Hit>,
                         now: string, desk: WorkingSet)
    requires FromDesk(budget, frame, subject, selected, ranked, now, desk)
    ensures desk.focus == subject
  {
  }

  lemma ListingFacts(events: seq<ContextEvent>, log: seq<ContextEvent>, protectedEvents: seq<ContextEvent>)
    requires RecentRing.DistinctIds(events) && RecentRing.DistinctIds(log)
    requires forall e :: e in log ==> WellCounted(e)
    requires protectedEvents == Where(Reverse(log), true, None)
    ensures RecentRing.DistinctIds(Reverse(events)) && RecentRing.DistinctIds(protectedEvents)
    ensures forall e :: e in protectedEvents ==> WellCounted(e)
  {
    hide WellCounted;
    assert RecentRing.DistinctIds(Reverse(log));
    WhereKeepsDistinct(Reverse(log), true, None);
    WhereMembers(Reverse(log), true, None);
    ReverseMembers(log);
  }

  lemma DistinctSelections(events: seq<ContextEvent>, protectedEvents: seq<ContextEvent>, recent: seq<Pick>,
                           protectedPicks: seq<Pick>, recentCap: int, protectedCap: int)
    requires RecentRing.DistinctIds(Reverse(events)) && RecentRing.DistinctIds(protectedEvents)
    requires IsGreedy(Reverse(events), recentCap, Reverse(recent))
    requires IsGreedy(Candidates(protectedEvents, EventIds(recent)), protectedCap, Reverse(protectedPicks))
    requires forall p :: p in protectedPicks ==> p.event.eventId !in EventIds(recent)
    ensures RecentRing.DistinctIds(PickEvents(protectedPicks + recent))
  {
    hide IsGreedy, Candidates, EventIds, Reverse;
    CandidatesKeepDistinct(protectedEvents, EventIds(recent));
    PicksAreDistinct(Reverse(events), recentCap, recent);
    PicksAreDistinct(Candidates(protectedEvents, EventIds(recent)), protectedCap, protectedPicks);
    NoEventTwice(recent, protectedPicks);
  }

  // The recent selection is never empty: it is a suffix of the events, all but its oldest
  // member in full, so the request ends with the newest event, cut only if it has to be.
  lemma NewestComesLast(budget: PromptBudget, frame: Frame, events: seq<ContextEvent>, log: seq<ContextEvent>,
                        desk: WorkingSet, recent: seq<Pick>, protectedPicks: seq<Pick>)
    requires budget.Accepted() && events != []
    requires MessageTokenCount(BaseMessages(frame.systemPrompt)) + 64 < budget.totalTokens
    requires Selects(budget, events, log, Available(budget, MessageTokenCount(BaseMessages(frame.systemPrompt))),
          recent, protectedPicks)
    ensures 0 < |recent| <= |events|
    ensures forall i :: 0 <= i < |recent| ==> recent[i].event == events[|events| - |recent| + i]
    ensures forall i :: 0 <= i < |recent| - 1 ==> recent[i].content == recent[i].event.content
    ensures var newest := events[|events| - 1];
            var cap := RecentCap(budget, Available(budget, MessageTokenCount(BaseMessages(frame.systemPrompt))));
            var messages := frame.Attached(desk, PickMessages(protectedPicks + recent));
            && cap >= 33 && messages != []
            && messages[|messages| - 1] == Message(newest.role, Shown(newest, cap - 4))
  {
    hide EstimateTokens, MessageTokenCount, Shown, TotalCost, Candidates, Where, Frame.SystemContent, BaseMessages;
    var cap := RecentCap(budget, Available(budget, MessageTokenCount(BaseMessages(frame.systemPrompt))));
    TailIsSuffix(events, cap, recent);
    var newest := Reverse(recent)[0];
    assert newest == recent[|recent| - 1] && newest.event == Reverse(events)[0];
  }

  // The ring always keeps the event just recorded.
  lemma NewestStaysInRing(log: seq<ContextEvent>, event: ContextEvent, maxEvents: nat, maxTokens: nat)
    requires 1 <= maxEvents && 64 <= maxTokens
    ensures var kept := RecentRing.FittingSuffix(log + [RecentRing.RingView(event, maxTokens)], maxEvents, maxTokens);
            kept != [] && kept[|kept| - 1] == RecentRing.RingView(event, maxTokens)
  {
    var all := log + [RecentRing.RingView(event, maxTokens)];
    RecentRing.FittingSuffixIsLongest(all, maxEvents, maxTokens);
    assert all[|log|..] == [RecentRing.RingView(event, maxTokens)];
    assert RecentRing.RingTokens(all[|log|..]) == RecentRing.RingView(event, maxTokens).tokenCount + 4;
    assert RecentRing.Fits(all[|log|..], maxEvents, maxTokens);
  }

  // A ring's shortened views stay well counted.
  lemma RingViewWellCounted(event: ContextEvent, maxTokens: nat)
    requires WellCounted(event) && 64 <= maxTokens
    ensures WellCounted(RecentRing.RingView(event, maxTokens))
  {
    hide RightStrip;
    assert |EVENT_TRUNCATION_MARKER| <= 40;
  }

  // With a ring that has events, a request that is not refused stays within the budget and
  // closes with the newest event.
  method BuildFromRing(budget: PromptBudget, frame: Frame, snapshot: seq<ContextEvent>, log: seq<ContextEvent>,
                       focus: string, ranked: seq<Hit>, admitted: bool, now: string, refreshedAt: string)
    returns (outcome: Result<GovernedPrompt, PromptError>)
    requires budget.Accepted() && snapshot != []
    requires RecentRing.DistinctIds(snapshot) && forall e :: e in snapshot ==> WellCounted(e)
    requires Ordered(log) && RecentRing.DistinctIds(log) && forall e :: e in log ==> WellCounted(e)
    ensures match outcome
            case Err(error) => Refusal(budget, frame, snapshot, log, Some(focus), admitted, now) == Some(error)
            case Ok(prompt) =>
              && Refusal(budget, frame, snapshot, log, Some(focus), admitted, now) == None
              && prompt.tokenCount == MessageTokenCount(prompt.messages) <= budget.totalTokens
              && EndsWith(prompt.messages, budget, frame, snapshot[|snapshot| - 1])
  {
    hide MessageTokenCount, BaseMessages, Selects, Frame.Attached, PickMessages, RecentCap, WellCounted, Ordered, Shown,
      RecentRing.DistinctIds, RecentRing.LastRows, PickEvents, RecordIds, FromDesk, IsSubject,
      DeskRequested;
    outcome := Build(budget, frame, snapshot, log, Some(focus), ranked, 128, admitted, now, refreshedAt);
    if outcome.Ok? {
      var prompt := outcome.value;
      NewestComesLast(budget, frame, snapshot, log, prompt.desk, prompt.recent, prompt.protectedPicks);
    }
  }

  ghost predicate EndsWith(messages: seq<Message>, budget: PromptBudget, frame: Frame, event: ContextEvent) {
    var available := Available(budget, MessageTokenCount(BaseMessages(frame.systemPrompt)));
    && available >= 0 && messages != []
    && messages[|messages| - 1] == Message(event.role, Shown(event, RecentCap(budget, available) - 4))
  }

  // Record the user's turn, then build its request.
  method Prepare(ring: RecentRing.RecentEventRing, budget: PromptBudget, frame: Frame, log: seq<ContextEvent>,
                 turn: ContextEvent, focus: string, ranked: seq<Hit>, admitted: bool, now: string, refreshedAt: string)
    returns (outcome: Result<GovernedPrompt, PromptError>)
    requires budget.Accepted()
    requires ring.Valid() && forall e :: e in ring.events ==> WellCounted(e)
    requires log != [] && turn == log[|log| - 1]
    requires turn.eventId !in ring.ids && ring.highestSequence < turn.sequence
    requires Ordered(log) && RecentRing.DistinctIds(log) && forall e :: e in log ==> WellCounted(e)
    modifies ring
    ensures ring.Valid()
    ensures var subject := if focus == "" then turn.content else focus;
            var refusal := Refusal(budget, frame, ring.events, log, Some(subject), admitted, now);
            match outcome
            case Err(error) => refusal == Some(error) && error != NoEvents
            case Ok(prompt) =>
              && refusal == None
              && prompt.tokenCount == MessageTokenCount(prompt.messages) <= budget.totalTokens
              && EndsWith(prompt.messages, budget, frame, RecentRing.RingView(turn, ring.maxTokens))
  {
    assert turn in log;
    ring.Append(turn);
    hide MessageTokenCount, BaseMessages, EndsWith, WellCounted, Ordered, DeskRequested,
      RecentRing.FittingSuffix, RecentRing.RingTokens, RecentRing.Fits, RecentRing.Ids, RecentRing.RingView;
    NewestStaysInRing(old(ring.events), turn, ring.maxEvents, ring.maxTokens);
    RingStaysWellCounted(old(ring.events), turn, ring.maxEvents, ring.maxTokens);
    var subject := if focus == "" then turn.content else focus;
    outcome := BuildFromRing(budget, frame, ring.events, log, subject, ranked, admitted, now, refreshedAt);
  }

  // The turn is sent whole exactly when it fits both the ring and the recent share; otherwise
  // it is cut to fit them.
  lemma TurnIsWholeOrCut(messages: seq<Message>, budget: PromptBudget, frame: Frame, turn: ContextEvent, maxTokens: nat)
    requires EndsWith(messages, budget, frame, RecentRing.RingView(turn, maxTokens)) && WellCounted(turn)
    requires budget.Accepted() && MessageTokenCount(BaseMessages(frame.systemPrompt)) + 64 < budget.totalTokens
    requires 64 <= maxTokens
    ensures var cap := RecentCap(budget, Available(budget, MessageTokenCount(BaseMessages(frame.systemPrompt))));
            var last := messages[|messages| - 1];
            && last.role == turn.role
            && (last.content == turn.content <==> turn.tokenCount + 4 <= Min(maxTokens, cap))
            && EstimateTokens(last.content) <= Min(maxTokens, cap) - 4
            && var marker := " … [full event remains in the Library]";
               var held := if turn.tokenCount + 4 <= maxTokens then turn.content
                           else TruncateText(turn.content, maxTokens - 4, marker);
               last.content == if EstimateTokens(held) + 4 <= cap then held else TruncateText(held, cap - 4, marker)
  {
    hide MessageTokenCount, BaseMessages, RightStrip, RecentCap;
    var cap := RecentCap(budget, Available(budget, MessageTokenCount(BaseMessages(frame.systemPrompt))));
    RecentShare(budget, Available(budget, MessageTokenCount(BaseMessages(frame.systemPrompt))));
    hide EstimateTokens, TruncateText;
    var view := RecentRing.RingView(turn, maxTokens);
    assert EstimateTokens(view.content) == view.tokenCount;
  }

  lemma RecentShare(budget: PromptBudget, available: nat)
    requires budget.Accepted() && available > 32
    ensures RecentCap(budget, available) >= 33
  {
  }

  lemma RingStaysWellCounted(events: seq<ContextEvent>, event: ContextEvent, maxEvents: nat, maxTokens: nat)
    requires 64 <= maxTokens && WellCounted(event) && forall e :: e in events ==> WellCounted(e)
    ensures var all := events + [RecentRing.RingView(event, maxTokens)];
            forall e :: e in RecentRing.FittingSuffix(all, maxEvents, maxTokens) ==> WellCounted(e)
  {
    hide WellCounted, RecentRing.RingView;
    RingViewWellCounted(event, maxTokens);
    RecentRing.FittingSuffixIsLongest(events + [RecentRing.RingView(event, maxTokens)], maxEvents, maxTokens);
  }
}
