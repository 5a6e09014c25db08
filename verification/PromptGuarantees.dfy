// What a caller finds in a governed prompt, in the numbers of its budget and the messages of
// its request.

module PromptGuarantees {
  import opened Results
  import opened Models
  import opened Collections
  import opened TextBudget
  import opened EventLog
  import opened Markup
  import opened Packing
  import opened MarkupReader
  import opened Prompt

  // A message costs a token for every four characters begun, and four more.
  lemma MessagesCost(messages: seq<Message>, message: Message)
    ensures MessageTokenCount([]) == 0
    ensures MessageTokenCount(messages + [message])
         == MessageTokenCount(messages) + (|message.content| + 3) / 4 + 4
  {
    hide EstimateTokens;
    MessageTokenCountConcat(messages, [message]);
    assert [message][1..] == [];
    assert MessageTokenCount([message]) == EstimateTokens(message.content) + 4 + MessageTokenCount([]);
  }

  // One system message, if there is a prompt or a desk, with the prompt first; then the protected
  // events and then the recent ones, in order.
  lemma RequestLayout(frame: Frame, desk: WorkingSet, protectedPicks: seq<Pick>, recent: seq<Pick>)
    ensures var block := FormatLibraryContext(desk.context, frame.sessionId, desk.refreshedAt, frame.mode);
            var above :=
              if frame.systemPrompt == "" && desk.context == "" then []
              else if desk.context == "" then [Message("system", frame.systemPrompt)]
              else if frame.systemPrompt == "" then [Message("system", block)]
              else [Message("system", frame.systemPrompt + "\n\n" + block)];
            var n := |protectedPicks|;
            var shown := seq(n + |recent|, i requires 0 <= i < n + |recent| =>
              if i < n then Message(protectedPicks[i].event.role, protectedPicks[i].content)
              else Message(recent[i - n].event.role, recent[i - n].content));
            frame.Attached(desk, PickMessages(protectedPicks + recent)) == above + shown
  {
    hide FormatLibraryContext;
    var block := FormatLibraryContext(desk.context, frame.sessionId, desk.refreshedAt, frame.mode);
    var n := |protectedPicks|;
    var shown := seq(n + |recent|, i requires 0 <= i < n + |recent| =>
      if i < n then Message(protectedPicks[i].event.role, protectedPicks[i].content)
      else Message(recent[i - n].event.role, recent[i - n].content));
    assert PickMessages(protectedPicks + recent) == shown;
    assert "" + block == block;
  }

  lemma Layout(frame: Frame, desk: WorkingSet, turns: seq<Message>)
    ensures var messages := frame.Attached(desk, turns);
            var block := FormatLibraryContext(desk.context, frame.sessionId, desk.refreshedAt, frame.mode);
            && |turns| <= |messages| && messages[|messages| - |turns|..] == turns
            && if frame.systemPrompt == "" && desk.context == "" then |messages| == |turns|
               else
                 && |messages| == |turns| + 1
                 && messages[0] == Message("system",
                      if desk.context == "" then frame.systemPrompt
                      else if frame.systemPrompt == "" then block
                      else frame.systemPrompt + "\n\n" + block)
  {
    hide FormatLibraryContext;
    var block := FormatLibraryContext(desk.context, frame.sessionId, desk.refreshedAt, frame.mode);
    assert "" + block == block;
  }

  // What is kept back for protected events: what they are allowed, as far as half of what is
  // available, or what the recent events leave by themselves, goes.
  lemma RecentLeavesTheReserve(budget: PromptBudget, frame: Frame, events: seq<ContextEvent>, log: seq<ContextEvent>,
                               recent: seq<Pick>, protectedPicks: seq<Pick>)
    requires budget.Accepted()
    requires var available := budget.totalTokens - MessageTokenCount(BaseMessages(frame.systemPrompt)) - 32;
             available > 32 && Selects(budget, events, log, available, recent, protectedPicks)
    ensures var available := budget.totalTokens - MessageTokenCount(BaseMessages(frame.systemPrompt)) - 32;
            var reserve := Min(budget.protectedTokens,
                               Max(0, available - Min(budget.recentTokens, Max(64, available / 2))));
            var used := MessageTokenCount(PickMessages(recent));
            && used + reserve <= available && used <= budget.recentTokens && |recent| <= |events|
            && (|recent| < |events| ==>
                  var next := events[|events| - |recent| - 1];
                  used + EstimateTokens(next.content) + 4 > Min(budget.recentTokens, available - reserve))
  {
    hide EstimateTokens, MessageTokenCount, BaseMessages, TotalCost, Shown, WellCounted, Candidates, Where;
    var available := budget.totalTokens - MessageTokenCount(BaseMessages(frame.systemPrompt)) - 32;
    PickCost(recent);
    ReverseCost(recent);
    var n := |recent|;
    assert |Reverse(recent)| == n && |Reverse(events)| == |events|;
    if n < |events| {
      assert Reverse(events)[n] == events[|events| - 1 - n];
    }
  }

  // ---- The protected events that recent ones leave out ----

  function ProtectedOutside(ids: set<string>): ContextEvent -> bool {
    (e: ContextEvent) => e.isProtected && e.eventId !in ids
  }

  lemma ReverseSnoc(front: seq<ContextEvent>, last: ContextEvent)
    ensures Reverse(front + [last]) == [last] + Reverse(front)
    ensures Reverse(front + [last])[1..] == Reverse(front)
  {
  }

  // What the protected listing offers, newest first, are those events backwards.
  lemma {:induction false} OfferedOutside(log: seq<ContextEvent>, ids: set<string>)
    returns (outside: seq<ContextEvent>, at: seq<nat>)
    ensures Keeps(log, ProtectedOutside(ids), outside, at)
    ensures Candidates(Where(Reverse(log), true, None), ids) == Reverse(outside)
  {
    hide Keeps, Reverse;
    if log == [] {
      outside, at := [], [];
      NothingKept(log, ProtectedOutside(ids));
      NothingOffered(log, ids);
    } else {
      var front, last := log[..|log| - 1], log[|log| - 1];
      outside, at := OfferedOutside(front, ids);
      KeepsOneMore(front, ProtectedOutside(ids), outside, at, last);
      assert log == front + [last];
      ReverseSnoc(front, last);
      ReverseSnoc(outside, last);
      if last.isProtected {
        assert Where(Reverse(log), true, None) == [last] + Where(Reverse(front), true, None);
      }
      if last.isProtected && last.eventId !in ids {
        outside, at := outside + [last], at + [|front|];
      }
    }
  }

  lemma NothingOffered(log: seq<ContextEvent>, ids: set<string>)
    requires log == []
    ensures Reverse(log) == [] && Candidates(Where(Reverse(log), true, None), ids) == []
  {
  }

  // `outside` are the protected events of the log that no recent message shows, at positions
  // `at`. The newest of them are sent, in order; only the very newest may be cut. They are all
  // sent in full if they cost no more than is left of the protected allowance.
  lemma ProtectedEventsAreShown(budget: PromptBudget, events: seq<ContextEvent>, log: seq<ContextEvent>,
                                available: nat, recent: seq<Pick>, protectedPicks: seq<Pick>)
    returns (outside: seq<ContextEvent>, at: seq<nat>)
    requires Selects(budget, events, log, available, recent, protectedPicks)
    requires forall e :: e in log ==> WellCounted(e)
    ensures Ascending(at, |log|) && |at| == |outside| && forall i :: 0 <= i < |at| ==> outside[i] == log[at[i]]
    ensures forall j :: 0 <= j < |log| ==>
              (j in at <==> log[j].isProtected && forall p :: p in recent ==> p.event.eventId != log[j].eventId)
    ensures var n, m := |protectedPicks|, |outside|;
            && n <= m
            && (forall i :: 0 <= i < n ==> protectedPicks[i].event == outside[m - n + i])
            && (forall i :: 0 <= i < n - 1 ==> protectedPicks[i].content == outside[m - n + i].content)
    ensures var whole := seq(|outside|, i requires 0 <= i < |outside| => Message(outside[i].role, outside[i].content));
            var left := Min(budget.protectedTokens, available - MessageTokenCount(PickMessages(recent)));
            MessageTokenCount(whole) <= left ==> PickMessages(protectedPicks) == whole
  {
    hide Keeps, Reverse, Candidates, Where, IsGreedy, WellCounted, TotalCost, EstimateTokens, MessageTokenCount;
    outside, at := OfferedOutside(log, EventIds(recent));
    KeptOutside(log, recent, outside, at);
    PickCost(recent);
    ReverseCost(recent);
    var cap := Min(budget.protectedTokens, available - TotalCost(Reverse(recent)));
    GreedyOfReverse(outside, cap, protectedPicks);
    var whole := seq(|outside|, i requires 0 <= i < |outside| => Message(outside[i].role, outside[i].content));
    if MessageTokenCount(whole) <= cap {
      WholeIfItFits(outside, cap, protectedPicks, whole);
    }
  }

  lemma KeptOutside(log: seq<ContextEvent>, recent: seq<Pick>, outside: seq<ContextEvent>, at: seq<nat>)
    requires Keeps(log, ProtectedOutside(EventIds(recent)), outside, at)
    ensures Ascending(at, |log|) && |at| == |outside| && forall i :: 0 <= i < |at| ==> outside[i] == log[at[i]]
    ensures forall j :: 0 <= j < |log| ==>
              (j in at <==> log[j].isProtected && forall p :: p in recent ==> p.event.eventId != log[j].eventId)
    ensures forall e :: e in outside ==> e in log
  {
    forall j | 0 <= j < |log|
      ensures j in at <==> log[j].isProtected && forall p :: p in recent ==> p.event.eventId != log[j].eventId
    {
      assert ProtectedOutside(EventIds(recent))(log[j]) <==> j in at;
    }
  }

  lemma GreedyOfReverse(outside: seq<ContextEvent>, cap: int, picks: seq<Pick>)
    requires IsGreedy(Reverse(outside), cap, Reverse(picks))
    ensures var n, m := |picks|, |outside|;
            && n <= m
            && (forall i :: 0 <= i < n ==> picks[i].event == outside[m - n + i])
            && (forall i :: 0 <= i < n - 1 ==> picks[i].content == outside[m - n + i].content)
  {
    TailIsSuffix(outside, cap, picks);
  }

  // All of them in full are an admissible choice, so the greedy one is no shorter, and the same.
  lemma WholeIfItFits(outside: seq<ContextEvent>, cap: int, picks: seq<Pick>, whole: seq<Message>)
    requires IsGreedy(Reverse(outside), cap, Reverse(picks)) && forall e :: e in outside ==> WellCounted(e)
    requires |whole| == |outside|
    requires forall i :: 0 <= i < |whole| ==> whole[i] == Message(outside[i].role, outside[i].content)
    requires MessageTokenCount(whole) <= cap
    ensures PickMessages(picks) == whole
  {
    var all := seq(|outside|, i requires 0 <= i < |outside| => Pick(outside[i], outside[i].content));
    assert PickMessages(all) == whole;
    PickCost(all);
    ReverseCost(all);
    AllShown(outside, cap, all);
    GreedyIsUnique(Reverse(outside), cap, Reverse(picks), Reverse(all));
    SameReverse(picks, all);
  }

  lemma AllShown(outside: seq<ContextEvent>, cap: int, all: seq<Pick>)
    requires forall e :: e in outside ==> WellCounted(e)
    requires |all| == |outside| && forall i :: 0 <= i < |all| ==> all[i] == Pick(outside[i], outside[i].content)
    requires TotalCost(Reverse(all)) <= cap
    ensures IsGreedy(Reverse(outside), cap, Reverse(all))
  {
    hide TotalCost, EstimateTokens;
    if all != [] {
      NewestCost(Reverse(all));
      assert outside[|outside| - 1] in outside;
    }
  }

  lemma NewestCost(picks: seq<Pick>)
    requires picks != []
    ensures Cost(picks[0].content) <= TotalCost(picks)
  {
  }

  // ---- What is read on the desk ----

  // A desk's text reads back as its hits, in order, each under its own identifier and source and
  // with its whole text, but for the last, which may be cut and then says so.
  lemma DeskReadsBack(desk: WorkingSet, ordered: seq<Hit>, tokenBudget: int, topK: nat)
    requires Packs(desk, ordered, tokenBudget, topK) && forall h :: h in ordered ==> Plain(h.relevance)
    ensures var read, n := ReadBooks(desk.context), |desk.hits|;
            && |read| == n <= |ordered|
            && (forall i :: 0 <= i < n ==>
                  && desk.hits[i] == ordered[i]
                  && Attribute(read[i].tag, "id") == Some(Sanitized(ordered[i].record.id))
                  && Attribute(read[i].tag, "source") == Some(Sanitized(ordered[i].record.source))
                  && Attribute(read[i].tag, "relevance") == Some(ordered[i].relevance))
            && (forall i :: 0 <= i < n - 1 ==> read[i].body == "\n" + Sanitized(ordered[i].record.text) + "\n")
            && (n > 0 ==>
                  var text := ordered[n - 1].record.text;
                  || read[n - 1].body == "\n" + Sanitized(text) + "\n"
                  || exists cut :: 1 <= cut <= |text|
                       && read[n - 1].body == "\n" + Sanitized(text[..cut] + " … [book text truncated]") + "\n")
  {
    hide IsPacking, Rendered, Join, EstimateTokens, Attribute, Sanitized, ReadBooks, Plain;
    var packed :| && IsPacking(Desk, ordered, tokenBudget, topK, packed) && packed.Shown() <= |ordered|
                  && desk.hits == ordered[..packed.Shown()] && desk.context == Join(Rendered(Desk, ordered, packed));
    RenderingReadsBack(Desk, ordered, packed);
    if packed.cut.Some? {
      CutIsInside(ordered, tokenBudget, topK, packed);
    }
  }

  lemma CutIsInside(ordered: seq<Hit>, tokenBudget: int, topK: nat, packed: Packed)
    requires IsPacking(Desk, ordered, tokenBudget, topK, packed) && packed.cut.Some?
    ensures packed.whole < |ordered| && 1 <= packed.cut.value <= |ordered[packed.whole].record.text|
  {
    hide Fits, CutFits;
  }
}
