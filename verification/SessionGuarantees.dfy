// What a caller finds in a session's envelope, and when it is refused one.

module SessionGuarantees {
  import opened Results
  import opened Models
  import opened TextBudget
  import opened Markup
  import opened Packing
  import opened Prompt
  import opened Session
  import opened PromptGuarantees

  // The requests that are refused before anything is retrieved, in the order of the checks.
  lemma RefusedBeforehand(budget: SessionBudget, frame: Frame, history: seq<Turn>, userMessage: Option<string>,
                          recordUser: bool, maxBooks: int)
    ensures var text := if userMessage.Some? then userMessage.value else "";
            var blank := forall i :: 0 <= i < |text| ==> IsSpace(text[i]);
            var baseTokens := if frame.systemPrompt == "" then 0 else EstimateTokens(frame.systemPrompt) + 4;
            EarlyRefusal(budget, frame, history, userMessage, recordUser, maxBooks)
            == if maxBooks < 1 || maxBooks > 100 then Some(TooManyBooks)
               else if recordUser && userMessage.Some? && blank then Some(EmptyMessage)
               else if baseTokens + 64 >= budget.tokenBudget then Some(SessionError.SystemPromptTooLarge)
               else if history == [] && userMessage.None? then Some(NothingToSay)
               else if history == [] && userMessage.value == "" then Some(IndexError)
               else None
  {
    hide EstimateTokens, IsSpace, Blank;
    BaseCost(frame.systemPrompt);
  }

  function Whole(turns: seq<Turn>): (messages: seq<Message>)
    ensures |messages| == |turns|
    ensures forall i :: 0 <= i < |turns| ==> messages[i] == Message(turns[i].role, turns[i].text)
  {
    seq(|turns|, i requires 0 <= i < |turns| => Message(turns[i].role, turns[i].text))
  }

  // The envelope ends with the newest records in full; a single one that is too long for its
  // share of the budget is cut to it.
  lemma EnvelopeShowsTheWindow(budget: SessionBudget, frame: Frame, history: seq<Turn>, userMessage: Option<string>,
                               maxBooks: int, ranked: seq<Hit>, now: string, refreshedAt: string,
                               envelope: PromptEnvelope)
    requires IsEnvelope(budget, frame, history, userMessage, maxBooks, ranked, now, refreshedAt, envelope)
    ensures var n, shown := |envelope.recentBooks|, envelope.messages;
            && n <= |history| && n <= |shown| && (history != [] ==> n > 0)
            && (forall i :: 0 <= i < n ==> envelope.recentBooks[i] == history[|history| - n + i].recordId)
            && (n != 1 ==> shown[|shown| - n..] == Whole(history[|history| - n..]))
            && (n == 1 ==>
                  var newest := history[|history| - 1];
                  var baseTokens := if frame.systemPrompt == "" then 0 else EstimateTokens(frame.systemPrompt) + 4;
                  var share := Min(budget.recentTokenBudget, budget.tokenBudget - baseTokens - 64);
                  shown[|shown| - 1] == Message(newest.role,
                    TruncateText(newest.text, Max(1, share - 4), " … [full message remains in the Library]")))
  {
    hide EstimateTokens, MessageTokenCount, TurnsCost, FormatLibraryContext, IsSessionDesk, SubjectOf, RightStrip,
      Frame.Attached, ShownTurns, Whole, BaseMessages, TruncateText, BookIds;
    BaseCost(frame.systemPrompt);
    var share, n := RecentBudget(budget, frame), |envelope.recentBooks|;
    var recent := history[|history| - n..];
    var turns := ShownTurns(recent, share);
    Layout(frame, envelope.desk, turns);
    BooksAre(recent);
    if n == 1 {
      OneShown(recent, share);
      LastOne(envelope.messages, turns);
    } else {
      ManyShown(recent, share);
    }
  }

  lemma BooksAre(recent: seq<Turn>)
    ensures forall i :: 0 <= i < |recent| ==> BookIds(recent)[i] == recent[i].recordId
  {
  }

  lemma OneShown(recent: seq<Turn>, share: int)
    requires |recent| == 1
    ensures ShownTurns(recent, share) ==
              [Message(recent[0].role,
                       TruncateText(recent[0].text, Max(1, share - 4), " … [full message remains in the Library]"))]
  {
    hide TruncateText;
  }

  lemma ManyShown(recent: seq<Turn>, share: int)
    requires |recent| != 1
    ensures ShownTurns(recent, share) == Whole(recent)
  {
  }

  lemma LastOne(messages: seq<Message>, turns: seq<Message>)
    requires |turns| == 1 && |messages| >= 1 && messages[|messages| - 1..] == turns
    ensures messages[|messages| - 1] == turns[0]
  {
  }

  // The records shown are as many as fit the share, or the newest one.
  lemma WindowFillsItsShare(budget: SessionBudget, frame: Frame, history: seq<Turn>, userMessage: Option<string>,
                            maxBooks: int, ranked: seq<Hit>, now: string, refreshedAt: string, envelope: PromptEnvelope)
    requires IsEnvelope(budget, frame, history, userMessage, maxBooks, ranked, now, refreshedAt, envelope)
    ensures var n := |envelope.recentBooks|;
            var baseTokens := if frame.systemPrompt == "" then 0 else EstimateTokens(frame.systemPrompt) + 4;
            var share := Min(budget.recentTokenBudget, budget.tokenBudget - baseTokens - 64);
            && n <= |history|
            && (n >= 2 ==> MessageTokenCount(Whole(history[|history| - n..])) <= share)
            && (n < |history| ==> MessageTokenCount(Whole(history[|history| - n - 1..])) > share)
  {
    hide EstimateTokens, MessageTokenCount, TurnsCost, FormatLibraryContext, IsSessionDesk, SubjectOf, RightStrip;
    BaseCost(frame.systemPrompt);
    var n := |envelope.recentBooks|;
    WholeTurnsCost(history[|history| - n..], Whole(history[|history| - n..]));
    if n < |history| {
      WholeTurnsCost(history[|history| - n - 1..], Whole(history[|history| - n - 1..]));
    }
  }

  // Above the records there is one system message, if there is a prompt or a desk.
  lemma EnvelopeLayout(budget: SessionBudget, frame: Frame, history: seq<Turn>, userMessage: Option<string>,
                       maxBooks: int, ranked: seq<Hit>, now: string, refreshedAt: string, envelope: PromptEnvelope)
    requires IsEnvelope(budget, frame, history, userMessage, maxBooks, ranked, now, refreshedAt, envelope)
    ensures var block := FormatLibraryContext(envelope.desk.context, frame.sessionId, envelope.desk.refreshedAt,
                                              frame.mode);
            var n, messages := |envelope.recentBooks|, envelope.messages;
            && envelope.tokenCount == MessageTokenCount(messages) <= budget.tokenBudget
            && if frame.systemPrompt == "" && envelope.desk.context == "" then |messages| == n
               else
                 && |messages| == n + 1
                 && messages[0] == Message("system",
                      if envelope.desk.context == "" then frame.systemPrompt
                      else if frame.systemPrompt == "" then block
                      else frame.systemPrompt + "\n\n" + block)
  {
    hide EstimateTokens, MessageTokenCount, TurnsCost, FormatLibraryContext, IsSessionDesk, SubjectOf, RightStrip;
    var share, n := RecentBudget(budget, frame), |envelope.recentBooks|;
    Layout(frame, envelope.desk, ShownTurns(history[|history| - n..], share));
  }

  // The desk looks for what the user said, or failing that for the newest record, in what the
  // messages leave, and shows the best of what was ranked but the records already shown.
  lemma EnvelopeDesk(budget: SessionBudget, frame: Frame, history: seq<Turn>, userMessage: Option<string>,
                     maxBooks: int, ranked: seq<Hit>, now: string, refreshedAt: string, envelope: PromptEnvelope)
    requires IsEnvelope(budget, frame, history, userMessage, maxBooks, ranked, now, refreshedAt, envelope)
    requires envelope.desk.context != ""
    ensures var desk, n := envelope.desk, |envelope.recentBooks|;
            && desk.focus == (if userMessage.Some? && userMessage.value != "" then userMessage.value
                              else if history == [] then "" else history[|history| - 1].text)
            && EstimateTokens(desk.context) <= desk.tokenBudget
            && n <= |envelope.messages|
            && (forall h :: h in desk.hits ==> h.record.id !in envelope.recentBooks)
            && var shown := set id | id in envelope.recentBooks;
               exists at :: ShowsBest(ranked, shown, desk.hits, at)
  {
    hide EstimateTokens, MessageTokenCount, IsWindow, ShowsBest, IsPacking, Rendered, Join, DeskBudget;
    var desk, n := envelope.desk, |envelope.recentBooks|;
    var recent := history[|history| - n..];
    var shown := set t | t in recent :: t.recordId;
    assert shown == set id | id in envelope.recentBooks by {
      SameIds(recent);
    }
    FirstOfFiltered(ranked, shown, desk.hits);
    EnvelopeShowsTheWindow(budget, frame, history, userMessage, maxBooks, ranked, now, refreshedAt, envelope);
  }

  lemma SameIds(recent: seq<Turn>)
    ensures (set t | t in recent :: t.recordId) == set id | id in BookIds(recent)
  {
    forall t | t in recent
      ensures t.recordId in BookIds(recent)
    {
      var i :| 0 <= i < |recent| && recent[i] == t;
      assert BookIds(recent)[i] == t.recordId;
    }
  }
}
