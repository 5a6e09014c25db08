// Token estimates, marked truncation and newest-first event selection.

module TextBudget {
  import opened Results
  import opened Models
  import opened Collections

  const EVENT_TRUNCATION_MARKER := " … [full event remains in the Library]"
  const MESSAGE_TRUNCATION_MARKER := " … [full message remains in the Library]"

  // ceil(character_count / 4)
  function EstimateTokens(text: string): (tokens: nat)
    ensures 4 * tokens >= |text| > 4 * (tokens - 1)
  {
    if text == "" then 0 else Max(1, (|text| + 3) / 4)
  }

  datatype Message = Message(role: string, content: string)

  function MessageTokenCount(messages: seq<Message>): nat {
    if messages == [] then 0
    else EstimateTokens(messages[0].content) + 4 + MessageTokenCount(messages[1..])
  }

  lemma {:induction false} MessageTokenCountConcat(a: seq<Message>, b: seq<Message>)
    ensures MessageTokenCount(a + b) == MessageTokenCount(a) + MessageTokenCount(b)
  {
    if a == [] {
      assert a + b == b;
    } else {
      MessageTokenCountConcat(a[1..], b);
      assert (a + b)[1..] == a[1..] + b;
    }
  }

  // str.isspace over single code points
  predicate IsSpace(c: char) {
    var u := c as int;
    || 0x09 <= u <= 0x0D || 0x1C <= u <= 0x20 || u == 0x85 || u == 0xA0 || u == 0x1680
    || 0x2000 <= u <= 0x200A || u == 0x2028 || u == 0x2029 || u == 0x202F || u == 0x205F || u == 0x3000
  }

  function RightStrip(text: string): (stripped: string)
    ensures stripped <= text
    ensures stripped != "" ==> !IsSpace(stripped[|stripped| - 1])
    ensures forall i :: |stripped| <= i < |text| ==> IsSpace(text[i])
  {
    if text != "" && IsSpace(text[|text| - 1]) then RightStrip(text[..|text| - 1]) else text
  }

  predicate Blank(text: string): (blank: bool)
    ensures blank <==> forall i :: 0 <= i < |text| ==> IsSpace(text[i])
  {
    RightStrip(text) == ""
  }

  function Prefix(text: string, n: nat): string {
    if n <= |text| then text[..n] else text
  }

  // The text itself if it fits, else a prefix of it, closed by the marker when there is room.
  function TruncateText(text: string, tokenBudget: int, marker: string): (shown: string)
    ensures EstimateTokens(shown) <= Max(0, tokenBudget)
    ensures EstimateTokens(text) <= tokenBudget ==> shown == text
    ensures exists n: nat :: n <= |text| && (shown == text[..n] || shown == text[..n] + marker)
  {
    if tokenBudget <= 0 then
      assert text[..0] == "";
      ""
    else if EstimateTokens(text) <= tokenBudget then
      assert text[..|text|] == text;
      text
    else
      var markerTokens := EstimateTokens(marker);
      if tokenBudget <= markerTokens then
        assert Prefix(text, tokenBudget * 4) == text[..Min(tokenBudget * 4, |text|)];
        Prefix(text, tokenBudget * 4)
      else
        var kept := RightStrip(Prefix(text, (tokenBudget - markerTokens) * 4));
        assert kept == text[..|kept|];
        kept + marker
  }

  // A text too long is cut where the marker still fits behind it: what is lost beyond that is
  // trailing space, and four more characters would exceed the budget.
  lemma TruncateKeepsMost(text: string, tokenBudget: nat, marker: string)
    requires 0 < tokenBudget < EstimateTokens(text)
    ensures var shown, markerTokens := TruncateText(text, tokenBudget, marker), EstimateTokens(marker);
            if tokenBudget <= markerTokens then
              shown == text[..4 * tokenBudget]
            else
              var room := 4 * (tokenBudget - markerTokens);
              && |marker| <= |shown| <= room + |marker| <= |text| + |marker|
              && shown == text[..|shown| - |marker|] + marker
              && (forall i :: |shown| - |marker| <= i < room ==> IsSpace(text[i]))
              && forall m :: room + 4 <= m <= |text| ==> EstimateTokens(text[..m] + marker) > tokenBudget
  {
    hide RightStrip, IsSpace;
    var markerTokens := EstimateTokens(marker);
    if tokenBudget > markerTokens {
      var room := 4 * (tokenBudget - markerTokens);
      var kept := RightStrip(text[..room]);
      assert kept == text[..|kept|];
      assert forall i :: |kept| <= i < room ==> text[..room][i] == text[i];
    }
  }

  // ---- Newest-first selection ----

  datatype Pick = Pick(event: ContextEvent, content: string)

  // The recorder stores an estimate with every event, and never an empty event.
  ghost predicate WellCounted(event: ContextEvent) {
    event.tokenCount == EstimateTokens(event.content) && event.content != ""
  }

  function Cost(content: string): nat {
    EstimateTokens(content) + 4
  }

  ghost function TotalCost(picks: seq<Pick>): nat {
    if picks == [] then 0 else Cost(picks[0].content) + TotalCost(picks[1..])
  }

  ghost function Candidates(events: seq<ContextEvent>, excluded: set<string>): seq<ContextEvent> {
    if events == [] then []
    else if events[0].eventId in excluded then Candidates(events[1..], excluded)
    else [events[0]] + Candidates(events[1..], excluded)
  }

  // What the newest candidate is shown as: only it may be cut.
  function Shown(event: ContextEvent, available: int): string {
    if event.tokenCount > available then TruncateText(event.content, available, EVENT_TRUNCATION_MARKER)
    else event.content
  }

  // The picks show the first candidates: the newest possibly cut, the others in full.
  ghost predicate ShowsFirst(candidates: seq<ContextEvent>, budget: int, picks: seq<Pick>) {
    && |picks| <= |candidates|
    && (forall i :: 0 <= i < |picks| ==>
          && picks[i].event == candidates[i]
          && picks[i].content == if i == 0 then Shown(candidates[0], budget - 4) else candidates[i].content)
    && (picks != [] ==> budget > 4)
    && TotalCost(picks) <= Max(0, budget)
  }

  // `picks`, newest first, are the longest run of candidates whose total cost fits.
  ghost predicate IsGreedy(candidates: seq<ContextEvent>, budget: int, picks: seq<Pick>) {
    && ShowsFirst(candidates, budget, picks)
    && (|picks| < |candidates| ==>
          if picks == [] then budget <= 4
          else TotalCost(picks) + Cost(candidates[|picks|].content) > budget)
  }

  lemma {:induction false} TotalCostSnoc(picks: seq<Pick>, pick: Pick)
    ensures TotalCost(picks + [pick]) == TotalCost(picks) + Cost(pick.content)
  {
    if picks == [] {
      assert picks + [pick] == [pick];
    } else {
      TotalCostSnoc(picks[1..], pick);
      assert (picks + [pick])[1..] == picks[1..] + [pick];
    }
  }

  lemma {:induction false} TotalCostMonotone(picks: seq<Pick>, n: nat)
    requires n <= |picks|
    ensures TotalCost(picks[..n]) <= TotalCost(picks)
  {
    if n > 0 {
      TotalCostMonotone(picks[1..], n - 1);
      assert picks[..n][1..] == picks[1..][..n - 1];
    }
  }

  // Nothing that shows the first candidates within the budget is longer than the greedy choice.
  lemma GreedyIsLongest(candidates: seq<ContextEvent>, budget: int, greedy: seq<Pick>, other: seq<Pick>)
    requires IsGreedy(candidates, budget, greedy) && ShowsFirst(candidates, budget, other)
    ensures |other| <= |greedy|
  {
    hide TotalCost, Shown, EstimateTokens;
    if greedy != [] && |greedy| < |other| {
      SameFirstPicks(candidates, budget, greedy, other);
      CostOfOneMore(other, |greedy|);
    }
  }

  lemma SameFirstPicks(candidates: seq<ContextEvent>, budget: int, few: seq<Pick>, many: seq<Pick>)
    requires ShowsFirst(candidates, budget, few) && ShowsFirst(candidates, budget, many) && |few| <= |many|
    ensures many[..|few|] == few
  {
    hide TotalCost, Shown, EstimateTokens;
    forall i | 0 <= i < |few|
      ensures many[i] == few[i]
    {
    }
  }

  lemma CostOfOneMore(picks: seq<Pick>, n: nat)
    requires n < |picks|
    ensures TotalCost(picks[..n]) + Cost(picks[n].content) <= TotalCost(picks)
  {
    hide EstimateTokens;
    TotalCostSnoc(picks[..n], picks[n]);
    assert picks[..n + 1] == picks[..n] + [picks[n]];
    TotalCostMonotone(picks, n + 1);
  }

  // So the greedy choice is determined by the candidates and the budget.
  lemma GreedyIsUnique(candidates: seq<ContextEvent>, budget: int, a: seq<Pick>, b: seq<Pick>)
    requires IsGreedy(candidates, budget, a) && IsGreedy(candidates, budget, b)
    ensures a == b
  {
    GreedyIsLongest(candidates, budget, a, b);
    GreedyIsLongest(candidates, budget, b, a);
  }

  lemma {:induction false} CandidatesConcat(a: seq<ContextEvent>, b: seq<ContextEvent>, excluded: set<string>)
    ensures Candidates(a + b, excluded) == Candidates(a, excluded) + Candidates(b, excluded)
  {
    if a == [] {
      assert a + b == b;
    } else {
      CandidatesConcat(a[1..], b, excluded);
      assert (a + b)[1..] == a[1..] + b;
      ConcatAssociates([a[0]], Candidates(a[1..], excluded), Candidates(b, excluded));
    }
  }

  function Reverse<T>(s: seq<T>): (r: seq<T>)
    ensures |r| == |s|
    ensures forall i :: 0 <= i < |s| ==> r[i] == s[|s| - 1 - i]
  {
    seq(|s|, i requires 0 <= i < |s| => s[|s| - 1 - i])
  }

  lemma ReverseMembers<T>(s: seq<T>)
    ensures forall x :: x in Reverse(s) <==> x in s
  {
    forall x | x in s
      ensures x in Reverse(s)
    {
      var i :| 0 <= i < |s| && s[i] == x;
      assert Reverse(s)[|s| - 1 - i] == x;
    }
  }

  lemma ExtendShows(candidates: seq<ContextEvent>, budget: int, picks: seq<Pick>, event: ContextEvent, content: string)
    requires ShowsFirst(candidates, budget, picks) && |picks| == |candidates| && 4 < budget
    requires content == if picks == [] then Shown(event, budget - 4) else event.content
    requires TotalCost(picks) + Cost(content) <= budget
    ensures ShowsFirst(candidates + [event], budget, picks + [Pick(event, content)])
  {
    TotalCostSnoc(picks, Pick(event, content));
  }

  // Where the loop breaks, the next candidate does not fit.
  lemma StopIsGreedy(all: seq<ContextEvent>, seen: seq<ContextEvent>, budget: int, picks: seq<Pick>,
                     event: ContextEvent)
    requires ShowsFirst(seen, budget, picks) && |picks| == |seen| < |all|
    requires all[..|seen| + 1] == seen + [event] && WellCounted(event)
    requires var available := budget - TotalCost(picks) - 4;
             available <= 0 || (picks != [] && event.tokenCount > available)
    ensures IsGreedy(all, budget, picks)
  {
    var prefix := all[..|seen| + 1];
    assert prefix[|seen|] == event;
    assert seen == prefix[..|seen|];
  }

  lemma ExhaustedIsGreedy(all: seq<ContextEvent>, budget: int, picks: seq<Pick>)
    requires ShowsFirst(all, budget, picks) && |picks| == |all|
    ensures IsGreedy(all, budget, picks)
  {
  }

  lemma ShownPicks(events: seq<ContextEvent>, n: nat, budget: int, picks: seq<Pick>, excluded: set<string>)
    requires n <= |events| && ShowsFirst(Candidates(events[..n], excluded), budget, picks)
    ensures forall p :: p in picks ==> p.event in events && p.event.eventId !in excluded
  {
    CandidatesAreEvents(events, n, excluded);
    forall p | p in picks
      ensures p.event in Candidates(events[..n], excluded)
    {
    }
  }

  lemma NothingShown(events: seq<ContextEvent>, excluded: set<string>, budget: int)
    ensures Candidates(events[..0], excluded) == [] && ShowsFirst([], budget, []) && TotalCost([]) == 0
  {
  }

  // The result is in chronological order.
  method SelectDescendingEvents(events: seq<ContextEvent>, tokenBudget: int, excluded: set<string>)
    returns (selected: seq<Pick>, used: nat)
    ensures used == TotalCost(Reverse(selected)) <= Max(0, tokenBudget)
    ensures forall p :: p in selected ==> p.event in events && p.event.eventId !in excluded
    ensures (forall e :: e in events ==> WellCounted(e)) ==>
              IsGreedy(Candidates(events, excluded), tokenBudget, Reverse(selected))
  {
    hide Candidates, ShowsFirst, IsGreedy, TotalCost, TruncateText, RightStrip, EstimateTokens;
    var picks: seq<Pick> := [];
    used := 0;
    var i := 0;
    NothingShown(events, excluded, tokenBudget);
    while i < |events|
      invariant 0 <= i <= |events|
      invariant used == TotalCost(picks) <= Max(0, tokenBudget)
      invariant |picks| == |Candidates(events[..i], excluded)|
      invariant ShowsFirst(Candidates(events[..i], excluded), tokenBudget, picks)
    {
      SplitCandidates(events, i, excluded);
      var event := events[i];
      assert event in events;
      if event.eventId in excluded {
        i := i + 1;
        continue;
      }
      var available := tokenBudget - used - 4;
      if available <= 0 {
        break;
      }
      var content := event.content;
      if event.tokenCount > available {
        if picks != [] {
          break;
        }
        content := TruncateText(event.content, available, EVENT_TRUNCATION_MARKER);
      }
      var cost := EstimateTokens(content) + 4;
      if used + cost > tokenBudget {
        assert !WellCounted(event);
        break;
      }
      ExtendShows(Candidates(events[..i], excluded), tokenBudget, picks, event, content);
      TotalCostSnoc(picks, Pick(event, content));
      picks := picks + [Pick(event, content)];
      used := used + cost;
      i := i + 1;
    }
    selected := Reverse(picks);
    assert Reverse(selected) == picks;
    ShownPicks(events, i, tokenBudget, picks, excluded);
    if i == |events| {
      assert events[..i] == events;
      ExhaustedIsGreedy(Candidates(events, excluded), tokenBudget, picks);
    } else {
      SplitCandidates(events, i, excluded);
      if WellCounted(events[i]) {
        StopIsGreedy(Candidates(events, excluded), Candidates(events[..i], excluded), tokenBudget, picks, events[i]);
      }
    }
  }

  // Newest events that fit and are not excluded, in chronological order.
  method SelectEventTail(events: seq<ContextEvent>, tokenBudget: int, excluded: set<string>)
    returns (selected: seq<Pick>, used: nat)
    ensures used == TotalCost(Reverse(selected)) <= Max(0, tokenBudget)
    ensures forall p :: p in selected ==> p.event in events && p.event.eventId !in excluded
    ensures (forall e :: e in events ==> WellCounted(e)) ==>
              IsGreedy(Candidates(Reverse(events), excluded), tokenBudget, Reverse(selected))
  {
    selected, used := SelectDescendingEvents(Reverse(events), tokenBudget, excluded);
    ReverseMembers(events);
  }

  lemma {:induction false} NothingExcluded(events: seq<ContextEvent>)
    ensures Candidates(events, {}) == events
  {
    if events != [] {
      NothingExcluded(events[1..]);
    }
  }

  // A greedy choice over a whole newest-first list shows a suffix of the log.
  lemma TailIsSuffix(events: seq<ContextEvent>, tokenBudget: int, selected: seq<Pick>)
    requires IsGreedy(Reverse(events), tokenBudget, Reverse(selected))
    ensures |selected| <= |events|
    ensures forall i :: 0 <= i < |selected| ==> selected[i].event == events[|events| - |selected| + i]
    ensures forall i :: 0 <= i < |selected| - 1 ==> selected[i].content == selected[i].event.content
  {
    var picks, newest := Reverse(selected), Reverse(events);
    hide Reverse, TotalCost;
    forall i | 0 <= i < |selected|
      ensures selected[i].event == events[|events| - |selected| + i]
      ensures i < |selected| - 1 ==> selected[i].content == selected[i].event.content
    {
      var j := |selected| - 1 - i;
      assert picks[j] == selected[i];
      assert newest[j] == events[|events| - 1 - j];
    }
  }

  lemma {:induction false} CandidatesAreEvents(events: seq<ContextEvent>, n: nat, excluded: set<string>)
    requires n <= |events|
    ensures forall e :: e in Candidates(events[..n], excluded) ==> e in events && e.eventId !in excluded
  {
    if n > 0 {
      CandidatesAreEvents(events, n - 1, excluded);
      SplitCandidates(events, n - 1, excluded);
    }
  }

  lemma SplitCandidates(events: seq<ContextEvent>, i: nat, excluded: set<string>)
    requires i < |events|
    ensures var before := Candidates(events[..i], excluded);
            if events[i].eventId in excluded then
              Candidates(events[..i + 1], excluded) == before
            else
              && Candidates(events[..i + 1], excluded) == before + [events[i]]
              && |before| < |Candidates(events, excluded)|
              && Candidates(events, excluded)[..|before| + 1] == before + [events[i]]
  {
    assert events[..i + 1] == events[..i] + [events[i]];
    CandidatesConcat(events[..i], [events[i]], excluded);
    assert events == events[..i + 1] + events[i + 1..];
    CandidatesConcat(events[..i + 1], events[i + 1..], excluded);
  }
}
