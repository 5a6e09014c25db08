// The virtual session: a window of recent records and a fresh desk under one budget.

module Session {
  import opened Results
  import opened Models
  import opened TextBudget
  import opened Markup
  import opened Packing
  import opened Prompt

  datatype SessionBudget = SessionBudget(tokenBudget: int, recentTokenBudget: int)
  {
    // What the session's constructor accepts.
    predicate Accepted() {
      256 <= tokenBudget <= MAX_CONTEXT_TOKENS && 64 <= recentTokenBudget < tokenBudget
    }
  }

  // One conversation record, with the role kept in its metadata.
  datatype Turn = Turn(recordId: string, role: string, text: string)

  datatype SessionError =
    | TooManyBooks
    | EmptyMessage          // a blank message cannot be recorded
    | SystemPromptTooLarge
    | NothingToSay
    | IndexError            // an empty message, nothing recorded, no history
    | CapacityExhausted     // every remembered desk generation is needed
    | EmptyQuery            // nothing to look for, yet a desk is asked for
    | AttributeError        // a reading desk has no packing method of its own
    | BudgetNotEnforced

  datatype PromptEnvelope = PromptEnvelope(messages: seq<Message>, tokenCount: nat, recentBooks: seq<string>,
        desk: WorkingSet)

  function TurnsCost(turns: seq<Turn>): nat {
    if turns == [] then 0 else Cost(turns[0].text) + TurnsCost(turns[1..])
  }

  // The longest run of newest records that fits, and always the newest one.
  ghost predicate IsWindow(history: seq<Turn>, maxTokens: int, recent: seq<Turn>) {
    && |recent| <= |history| && recent == history[|history| - |recent|..]
    && (history != [] ==> recent != [])
    && (|recent| >= 2 ==> TurnsCost(recent) <= maxTokens)
    && (|recent| < |history| ==> TurnsCost(history[|history| - |recent| - 1..]) > maxTokens)
  }

  method Recent(history: seq<Turn>, maxTokens: int) returns (recent: seq<Turn>)
    ensures IsWindow(history, maxTokens, recent)
  {
    recent := [];
    var used := 0;
    var i := |history|;
    assert history[i..] == [];
    while i > 0
      invariant 0 <= i <= |history| && recent == history[i..]
      invariant used == TurnsCost(recent)
      invariant |recent| >= 2 ==> used <= maxTokens
    {
      var record := history[i - 1];
      var cost := EstimateTokens(record.text) + 4;
      assert history[i - 1..] == [record] + recent && ([record] + recent)[1..] == recent;
      if recent != [] && used + cost > maxTokens {
        break;
      }
      recent := [record] + recent;
      used := used + cost;
      i := i - 1;
    }
  }

  function ShownTurn(turn: Turn, tokenBudget: int): Message {
    Message(turn.role, TruncateText(turn.text, tokenBudget, MESSAGE_TRUNCATION_MARKER))
  }

  lemma {:induction false} TurnsCostConcat(a: seq<Turn>, b: seq<Turn>)
    ensures TurnsCost(a + b) == TurnsCost(a) + TurnsCost(b)
  {
    hide Cost;
    if a == [] {
      assert a + b == b;
    } else {
      TurnsCostConcat(a[1..], b);
      assert (a + b)[1..] == a[1..] + b;
    }
  }

  lemma CostOfPrefix(recent: seq<Turn>, i: nat)
    requires i < |recent|
    ensures TurnsCost(recent[..i]) + Cost(recent[i].text) == TurnsCost(recent[..i + 1]) <= TurnsCost(recent)
  {
    hide Cost;
    assert recent[..i + 1] == recent[..i] + [recent[i]];
    TurnsCostConcat(recent[..i], [recent[i]]);
    assert TurnsCost([recent[i]]) == Cost(recent[i].text);
    assert recent == recent[..i + 1] + recent[i + 1..];
    TurnsCostConcat(recent[..i + 1], recent[i + 1..]);
  }

  lemma AppendedMessage(messages: seq<Message>, message: Message)
    ensures MessageTokenCount(messages + [message]) == MessageTokenCount(messages) + Cost(message.content)
  {
    MessageTokenCountConcat(messages, [message]);
  }

  // Several records are sent in full; a single one is cut if it has to be.
  function ShownTurns(recent: seq<Turn>, recentBudget: int): (messages: seq<Message>)
    ensures |messages| == |recent|
  {
    if |recent| == 1 then [ShownTurn(recent[0], Max(1, recentBudget - 4))]
    else seq(|recent|, i requires 0 <= i < |recent| => Message(recent[i].role, recent[i].text))
  }

  method ShowRecent(recent: seq<Turn>, recentBudget: int) returns (messages: seq<Message>)
    requires |recent| >= 2 ==> TurnsCost(recent) <= recentBudget
    ensures messages == ShownTurns(recent, recentBudget)
    ensures MessageTokenCount(messages) <= Max(recentBudget, 5)
  {
    hide EstimateTokens, MessageTokenCount, TurnsCost, RightStrip;
    messages := [];
    var recentUsed := 0;
    assert MessageTokenCount([]) == 0 && TurnsCost(recent[..0]) == 0 by { Empties(); }
    for i := 0 to |recent|
      invariant |messages| == i && recentUsed == MessageTokenCount(messages)
      invariant |recent| >= 2 ==> recentUsed == TurnsCost(recent[..i])
      invariant |recent| < 2 ==> messages == ShownTurns(recent[..i], recentBudget)
      invariant |recent| >= 2 ==> forall j :: 0 <= j < i ==> messages[j] == Message(recent[j].role, recent[j].text)
      invariant recentUsed <= Max(recentBudget, 5)
    {
      var record := recent[i];
      var remaining := Max(1, recentBudget - recentUsed - 4);
      if |recent| >= 2 {
        CostOfPrefix(recent, i);
      }
      var content := TruncateText(record.text, remaining, MESSAGE_TRUNCATION_MARKER);
      AppendedMessage(messages, Message(record.role, content));
      messages := messages + [Message(record.role, content)];
      recentUsed := recentUsed + EstimateTokens(content) + 4;
    }
  }

  lemma {:induction false} WholeTurnsCost(turns: seq<Turn>, messages: seq<Message>)
    requires |messages| == |turns|
    requires forall i :: 0 <= i < |turns| ==> messages[i] == Message(turns[i].role, turns[i].text)
    ensures MessageTokenCount(messages) == TurnsCost(turns)
  {
    hide EstimateTokens;
    if turns != [] {
      WholeTurnsCost(turns[1..], messages[1..]);
    }
  }

  // A window is shown within the recent budget, or in the least that a message can take.
  lemma ShownTurnsCost(recent: seq<Turn>, recentBudget: int)
    requires |recent| >= 2 ==> TurnsCost(recent) <= recentBudget
    ensures MessageTokenCount(ShownTurns(recent, recentBudget)) <= Max(recentBudget, 5)
  {
    hide TurnsCost, EstimateTokens;
    var messages := ShownTurns(recent, recentBudget);
    if |recent| == 1 {
      assert messages[1..] == [];
      assert EstimateTokens(messages[0].content) <= Max(1, recentBudget - 4);
    } else if |recent| >= 2 {
      WholeTurnsCost(recent, messages);
    }
  }

  lemma Empties()
    ensures MessageTokenCount([]) == 0 && TurnsCost([]) == 0
  {
  }

  // ---- The desk and the budget ----

  // How much longer the second rendering of the clock may be than the first.
  function ClockSlack(systemPrompt: string): nat {
    if systemPrompt == "" then 16 else 30
  }

  function DeskBudget(total: int, frame: Frame, turns: seq<Message>, now: string): nat {
    var messages := BaseMessages(frame.systemPrompt) + turns;
    Max(0, total - MessageTokenCount(messages) - EstimateTokens(frame.EmptyWrapper(now)) - 8)
  }

  lemma SystemLength(frame: Frame, working: WorkingSet, now: string)
    ensures |frame.SystemContent(working)| + |now|
         == |frame.EmptyWrapper(now)| + |working.refreshedAt| + |working.context|
            + if frame.systemPrompt == "" then 0 else |frame.systemPrompt| + 2
  {
    hide FormatLibraryContext;
    ContextLength(working.context, frame.sessionId, working.refreshedAt, now, frame.mode);
  }

  lemma BaseTokens(frame: Frame, turns: seq<Message>)
    ensures MessageTokenCount(BaseMessages(frame.systemPrompt) + turns)
         == MessageTokenCount(turns) + if frame.systemPrompt == "" then 0 else EstimateTokens(frame.systemPrompt) + 4
  {
    hide EstimateTokens;
    assert [] + turns == turns;
    OneMessage(Message("system", frame.systemPrompt), turns);
  }

  // Rounding up the system prompt, the wrapper and the desk separately costs less than the
  // eight tokens kept back, as long as the clock does not render much longer the second time.
  lemma DeskStaysWithinBudget(total: int, frame: Frame, turns: seq<Message>, working: WorkingSet, now: string)
    requires working.context != ""
    requires EstimateTokens(working.context) <= DeskBudget(total, frame, turns, now)
    requires |working.refreshedAt| <= |now| + ClockSlack(frame.systemPrompt)
    ensures MessageTokenCount(frame.Attached(working, turns)) <= total
  {
    hide EstimateTokens, MessageTokenCount, FormatLibraryContext, Frame.SystemContent, Frame.EmptyWrapper;
    assert EstimateTokens(working.context) >= 1;
    SystemLength(frame, working, now);
    BaseTokens(frame, turns);
    OneMessage(Message("system", frame.SystemContent(working)), turns);
  }

  // One character more can be one token too many, with a system prompt as without one, so
  // both slacks are exact.
  lemma ClockSlackIsTight(total: int, frame: Frame, turns: seq<Message>, working: WorkingSet, now: string)
    requires |frame.systemPrompt| % 4 == 0 && |frame.EmptyWrapper(now)| % 4 == 0
    requires |working.context| == 4 * DeskBudget(total, frame, turns, now) > 0
    requires |working.refreshedAt| == |now| + ClockSlack(frame.systemPrompt) + 1
    ensures MessageTokenCount(frame.Attached(working, turns)) == total + 1
  {
    hide EstimateTokens, MessageTokenCount, FormatLibraryContext, Frame.SystemContent, Frame.EmptyWrapper;
    SystemLength(frame, working, now);
    BaseTokens(frame, turns);
    OneMessage(Message("system", frame.SystemContent(working)), turns);
  }

  // The session's own repair branch asks a reading desk for a method it does not have.
  function EnforceBudget(total: int, messages: seq<Message>, working: WorkingSet): Result<nat, SessionError> {
    var tokenCount := MessageTokenCount(messages);
    if tokenCount > total && working.context != "" then Err(AttributeError)
    else if tokenCount > total then Err(SessionError.BudgetNotEnforced)
    else Ok(tokenCount)
  }

  // The desk is refreshed with what the messages leave over, if that is worth while.
  ghost predicate IsSessionDesk(budget: SessionBudget, frame: Frame, subject: string, turns: seq<Message>,
                                recent: seq<Turn>, maxBooks: int, ranked: seq<Hit>, now: string, refreshedAt: string,
                                desk: WorkingSet) {
    var deskBudget := DeskBudget(budget.tokenBudget, frame, turns, now);
    if deskBudget < 8 then desk == EmptyDesk(subject, now)
    else
      && IsDesk(desk, Filter(ranked, set t | t in recent :: t.recordId), deskBudget, Max(0, maxBooks))
      && desk.refreshedAt == refreshedAt && desk.focus == subject
  }

  // A session asks for a desk whatever the subject, once eight tokens are left for it.
  function DeskRefusal(room: nat, subject: string, admitted: bool): Option<SessionError> {
    if room < 8 then None
    else if !admitted then Some(SessionError.CapacityExhausted)
    else if Blank(subject) then Some(SessionError.EmptyQuery)
    else None
  }

  method RetrieveContext(budget: SessionBudget, frame: Frame, subject: string, turns: seq<Message>, recent: seq<Turn>,
                         maxBooks: int, ranked: seq<Hit>, admitted: bool, now: string, refreshedAt: string)
    returns (outcome: Result<WorkingSet, SessionError>)
    requires budget.Accepted() && 1 <= maxBooks <= MAX_RESULT_BOOKS
    ensures var refusal := DeskRefusal(DeskBudget(budget.tokenBudget, frame, turns, now), subject, admitted);
            && refusal == (if outcome.Err? then Some(outcome.error) else None)
            && (outcome.Ok? ==>
                  IsSessionDesk(budget, frame, subject, turns, recent, maxBooks, ranked, now, refreshedAt,
                                outcome.value))
    ensures var left := budget.tokenBudget - MessageTokenCount(BaseMessages(frame.systemPrompt) + turns)
                        - EstimateTokens(frame.EmptyWrapper(now)) - 8;
            var blank := forall i :: 0 <= i < |subject| ==> IsSpace(subject[i]);
            && (outcome == Err(SessionError.CapacityExhausted) <==> left >= 8 && !admitted)
            && (outcome == Err(SessionError.EmptyQuery) <==> left >= 8 && admitted && blank)
            && (outcome.Ok? <==> left < 8 || (admitted && !blank))
            && (outcome.Ok? ==>
                  if left < 8 then outcome.value.hits == [] && outcome.value.context == ""
                  else
                    && outcome.value.tokenBudget == left && EstimateTokens(outcome.value.context) <= left
                    && outcome.value.refreshedAt == refreshedAt)
    ensures outcome.Ok? ==>
              && outcome.value.focus == subject
              && var shown := set t | t in recent :: t.recordId;
                 exists at :: ShowsBest(ranked, shown, outcome.value.hits, at)
  {
    hide IsDesk, EstimateTokens, MessageTokenCount, Frame.EmptyWrapper, Blank, IsSpace, ShowsBest;
    DesksFit();
    NoneShown(ranked, set t | t in recent :: t.recordId);
    var deskBudget := DeskBudget(budget.tokenBudget, frame, turns, now);
    if deskBudget < 8 {
      return Ok(EmptyDesk(subject, now));
    }
    DeskBudgetWithin(budget.tokenBudget, frame, turns, now);
    var shown := set t | t in recent :: t.recordId;
    var refreshed := Refresh(subject, ranked, deskBudget, maxBooks, shown, admitted, refreshedAt);
    match refreshed {
      case Ok(desk) => outcome := Ok(desk);
      case Err(error) =>
        outcome := Err(if error.CapacityExhausted? then SessionError.CapacityExhausted else SessionError.EmptyQuery);
    }
  }

  lemma DesksFit()
    ensures forall desk: WorkingSet, ordered: seq<Hit>, tokenBudget, topK ::
              IsDesk(desk, ordered, tokenBudget, topK) ==>
                desk.tokenBudget == tokenBudget && EstimateTokens(desk.context) <= tokenBudget
  {
  }

  lemma DeskBudgetWithin(total: int, frame: Frame, turns: seq<Message>, now: string)
    ensures DeskBudget(total, frame, turns, now) <= Max(0, total)
  {
    hide EstimateTokens, MessageTokenCount, Frame.EmptyWrapper;
  }

  // A prompt within the budget: a window of the history, in full unless it is one record, under
  // a desk that shows none of the same records.
  ghost predicate IsEnvelope(budget: SessionBudget, frame: Frame, history: seq<Turn>, userMessage: Option<string>,
                             maxBooks: int, ranked: seq<Hit>, now: string, refreshedAt: string,
                             envelope: PromptEnvelope) {
    var recentBudget := RecentBudget(budget, frame);
    && |envelope.recentBooks| <= |history|
    && var recent := history[|history| - |envelope.recentBooks|..];
    && IsWindow(history, recentBudget, recent)
    && Encloses(budget, frame, ShownTurns(recent, recentBudget), envelope)
    && envelope.recentBooks == BookIds(recent)
    && IsSessionDesk(budget, frame, SubjectOf(history, userMessage), ShownTurns(recent, recentBudget), recent,
                     maxBooks, ranked, now, refreshedAt, envelope.desk)
  }

  // The user's message, or failing that the newest record.
  function SubjectOf(history: seq<Turn>, userMessage: Option<string>): string {
    if userMessage.Some? && userMessage.value != "" then userMessage.value
    else if history == [] then ""
    else history[|history| - 1].text
  }

  ghost predicate Encloses(budget: SessionBudget, frame: Frame, turns: seq<Message>, envelope: PromptEnvelope) {
    && envelope.tokenCount == MessageTokenCount(envelope.messages) <= budget.tokenBudget
    && envelope.messages == frame.Attached(envelope.desk, turns)
    && forall h :: h in envelope.desk.hits ==> h.record.id !in envelope.recentBooks
  }

  function RecentBudget(budget: SessionBudget, frame: Frame): int {
    Min(budget.recentTokenBudget, budget.tokenBudget - MessageTokenCount(BaseMessages(frame.systemPrompt)) - 64)
  }

  function BookIds(recent: seq<Turn>): (ids: seq<string>)
    ensures |ids| == |recent|
  {
    seq(|recent|, i requires 0 <= i < |recent| => recent[i].recordId)
  }

  // The requests that are refused before a desk is asked for, and why.
  function EarlyRefusal(budget: SessionBudget, frame: Frame, history: seq<Turn>, userMessage: Option<string>,
                        recordUser: bool, maxBooks: int): Option<SessionError>
  {
    if !(1 <= maxBooks <= MAX_RESULT_BOOKS) then Some(TooManyBooks)
    else if recordUser && userMessage.Some? && Blank(userMessage.value) then Some(EmptyMessage)
    else if MessageTokenCount(BaseMessages(frame.systemPrompt)) + 64 >= budget.tokenBudget then
      Some(SessionError.SystemPromptTooLarge)
    else if history != [] then None
    else match userMessage
      case None => Some(NothingToSay)
      case Some(message) => if message == "" then Some(IndexError) else None
  }

  function RoomBeside(budget: SessionBudget, frame: Frame, recent: seq<Turn>, now: string): nat {
    DeskBudget(budget.tokenBudget, frame, ShownTurns(recent, RecentBudget(budget, frame)), now)
  }

  // The room for a desk beside the window of the history.
  ghost predicate HasRoom(budget: SessionBudget, frame: Frame, history: seq<Turn>, now: string, room: nat) {
    var maxTokens := RecentBudget(budget, frame);
    exists recent :: IsWindow(history, maxTokens, recent) && room == RoomBeside(budget, frame, recent, now)
  }

  // All refusals; every other request is answered.
  ghost predicate Refused(budget: SessionBudget, frame: Frame, history: seq<Turn>, userMessage: Option<string>,
                          recordUser: bool, maxBooks: int, admitted: bool, now: string, error: SessionError) {
    || EarlyRefusal(budget, frame, history, userMessage, recordUser, maxBooks) == Some(error)
    || (&& EarlyRefusal(budget, frame, history, userMessage, recordUser, maxBooks) == None
        && exists room :: HasRoom(budget, frame, history, now, room)
                          && DeskRefusal(room, SubjectOf(history, userMessage), admitted) == Some(error))
  }

  lemma SuffixCost(history: seq<Turn>, m: nat, n: nat)
    requires m <= n <= |history|
    ensures TurnsCost(history[n..]) <= TurnsCost(history[m..])
  {
    hide TurnsCost;
    assert history[m..] == history[m..n] + history[n..];
    TurnsCostConcat(history[m..n], history[n..]);
  }

  lemma WindowIsNoLonger(history: seq<Turn>, maxTokens: int, a: seq<Turn>, b: seq<Turn>)
    requires IsWindow(history, maxTokens, a) && IsWindow(history, maxTokens, b)
    ensures |b| <= |a|
  {
    hide TurnsCost;
    if |a| < |b| {
      SuffixCost(history, |history| - |b|, |history| - |a| - 1);
    }
  }

  // History and budget leave only one window.
  lemma WindowIsUnique(history: seq<Turn>, maxTokens: int, a: seq<Turn>, b: seq<Turn>)
    requires IsWindow(history, maxTokens, a) && IsWindow(history, maxTokens, b)
    ensures a == b
  {
    hide TurnsCost;
    WindowIsNoLonger(history, maxTokens, a, b);
    WindowIsNoLonger(history, maxTokens, b, a);
  }

  lemma RoomIsUnique(budget: SessionBudget, frame: Frame, history: seq<Turn>, now: string, recent: seq<Turn>)
    requires IsWindow(history, RecentBudget(budget, frame), recent)
    ensures forall room: nat :: HasRoom(budget, frame, history, now, room) <==>
              room == RoomBeside(budget, frame, recent, now)
  {
    hide IsWindow, DeskBudget, ShownTurns, RecentBudget;
    forall room: nat | HasRoom(budget, frame, history, now, room)
      ensures room == RoomBeside(budget, frame, recent, now)
    {
      var maxTokens := RecentBudget(budget, frame);
      var other :| IsWindow(history, maxTokens, other) && room == RoomBeside(budget, frame, other, now);
      WindowIsUnique(history, maxTokens, recent, other);
    }
  }

  // Beside a window, the desk alone decides.
  lemma DeskDecides(budget: SessionBudget, frame: Frame, history: seq<Turn>, userMessage: Option<string>,
                    recordUser: bool, maxBooks: int, admitted: bool, now: string, recent: seq<Turn>)
    requires IsWindow(history, RecentBudget(budget, frame), recent)
    requires EarlyRefusal(budget, frame, history, userMessage, recordUser, maxBooks) == None
    ensures var room := RoomBeside(budget, frame, recent, now);
            forall error ::
              Refused(budget, frame, history, userMessage, recordUser, maxBooks, admitted, now, error) <==>
              DeskRefusal(room, SubjectOf(history, userMessage), admitted) == Some(error)
  {
    hide IsWindow, DeskBudget, ShownTurns, RecentBudget, HasRoom, EarlyRefusal, DeskRefusal, SubjectOf;
    RoomIsUnique(budget, frame, history, now, recent);
  }

  // The desk as retrieved, attached to the window, exceeds the budget: the repair branch is
  // entered, and asks for what a desk does not have.
  ghost predicate Overflows(budget: SessionBudget, frame: Frame, subject: string, turns: seq<Message>,
                            recent: seq<Turn>, maxBooks: int, ranked: seq<Hit>, now: string, refreshedAt: string) {
    exists desk ::
      && IsSessionDesk(budget, frame, subject, turns, recent, maxBooks, ranked, now, refreshedAt, desk)
      && MessageTokenCount(frame.Attached(desk, turns)) > budget.tokenBudget
  }

  ghost predicate Overlong(budget: SessionBudget, frame: Frame, history: seq<Turn>, userMessage: Option<string>,
                           maxBooks: int, ranked: seq<Hit>, now: string, refreshedAt: string) {
    var maxTokens := RecentBudget(budget, frame);
    exists recent ::
      && IsWindow(history, maxTokens, recent)
      && Overflows(budget, frame, SubjectOf(history, userMessage), ShownTurns(recent, maxTokens), recent, maxBooks,
                   ranked, now, refreshedAt)
  }

  // Inputs leave only one desk.
  lemma DeskIsUnique(budget: SessionBudget, frame: Frame, subject: string, turns: seq<Message>, recent: seq<Turn>,
                     maxBooks: int, ranked: seq<Hit>, now: string, refreshedAt: string, a: WorkingSet, b: WorkingSet)
    requires IsSessionDesk(budget, frame, subject, turns, recent, maxBooks, ranked, now, refreshedAt, a)
    requires IsSessionDesk(budget, frame, subject, turns, recent, maxBooks, ranked, now, refreshedAt, b)
    ensures a == b
  {
    hide DeskBudget, IsPacking, Rendered, Join, EstimateTokens;
    var deskBudget := DeskBudget(budget.tokenBudget, frame, turns, now);
    if deskBudget >= 8 {
      SamePacks(a, b, Filter(ranked, set t | t in recent :: t.recordId), deskBudget, Max(0, maxBooks));
    }
  }

  lemma SamePacks(a: WorkingSet, b: WorkingSet, ordered: seq<Hit>, tokenBudget: int, topK: nat)
    requires Packs(a, ordered, tokenBudget, topK) && Packs(b, ordered, tokenBudget, topK)
    ensures a.hits == b.hits && a.context == b.context && a.tokenCount == b.tokenCount
  {
    hide IsPacking, Rendered, Join, EstimateTokens;
    var p :| && IsPacking(Desk, ordered, tokenBudget, topK, p) && p.Shown() <= |ordered|
             && a.hits == ordered[..p.Shown()] && a.context == Join(Rendered(Desk, ordered, p));
    var q :| && IsPacking(Desk, ordered, tokenBudget, topK, q) && q.Shown() <= |ordered|
             && b.hits == ordered[..q.Shown()] && b.context == Join(Rendered(Desk, ordered, q));
    PackingIsUnique(Desk, ordered, tokenBudget, topK, p, q);
  }

  // `history` is read after the user's message, if it is to be recorded, has been.
  method BuildPrompt(budget: SessionBudget, frame: Frame, history: seq<Turn>, userMessage: Option<string>,
                     recordUser: bool, maxBooks: int, ranked: seq<Hit>, admitted: bool, now: string,
                     refreshedAt: string)
    returns (outcome: Result<PromptEnvelope, SessionError>)
    requires budget.Accepted()
    ensures match outcome
            case Err(error) =>
              || Refused(budget, frame, history, userMessage, recordUser, maxBooks, admitted, now, error)
              || (&& error == AttributeError
                  && (forall e :: !Refused(budget, frame, history, userMessage, recordUser, maxBooks, admitted, now, e))
                  && Overlong(budget, frame, history, userMessage, maxBooks, ranked, now, refreshedAt))
            case Ok(envelope) =>
              && (forall e :: !Refused(budget, frame, history, userMessage, recordUser, maxBooks, admitted, now, e))
              && !Overlong(budget, frame, history, userMessage, maxBooks, ranked, now, refreshedAt)
              && IsEnvelope(budget, frame, history, userMessage, maxBooks, ranked, now, refreshedAt, envelope)
  {
    hide BaseMessages, MessageTokenCount, EstimateTokens, ShownTurns, Encloses, BookIds, TurnsCost, RecentBudget,
      IsWindow, IsEnvelope, IsSessionDesk, Blank, HasRoom, DeskBudget, DeskRefusal, Overlong, Overflows;
    if !(1 <= maxBooks <= MAX_RESULT_BOOKS) {
      return Err(TooManyBooks);
    }
    if recordUser && userMessage.Some? && Blank(userMessage.value) {
      return Err(EmptyMessage);
    }
    var baseTokens := MessageTokenCount(BaseMessages(frame.systemPrompt));
    if baseTokens + 64 >= budget.tokenBudget {
      return Err(SessionError.SystemPromptTooLarge);
    }
    var recentBudget := RecentBudget(budget, frame);
    var recent := Recent(history, recentBudget);
    WindowFits(history, recentBudget, recent);
    if recent == [] && userMessage == None {
      return Err(NothingToSay);
    }
    if recent == [] && userMessage.value == "" {
      return Err(IndexError);
    }
    var given := userMessage.Some? && userMessage.value != "";
    var subject := if given then userMessage.value else recent[|recent| - 1].text;
    assert subject == SubjectOf(history, userMessage);
    hide Refused, SubjectOf;
    DeskDecides(budget, frame, history, userMessage, recordUser, maxBooks, admitted, now, recent);
    var turns := ShowRecent(recent, recentBudget);
    outcome := FillEnvelope(budget, frame, subject, turns, recent, maxBooks, ranked, admitted, now, refreshedAt);
    WindowOverflows(budget, frame, history, userMessage, recent, maxBooks, ranked, now, refreshedAt);
    if outcome.Ok? {
      EnvelopeOf(budget, frame, history, userMessage, recent, maxBooks, ranked, now, refreshedAt, outcome.value);
    }
  }

  lemma WindowFits(history: seq<Turn>, recentBudget: int, recent: seq<Turn>)
    requires IsWindow(history, recentBudget, recent)
    ensures |recent| >= 2 ==> TurnsCost(recent) <= recentBudget
    ensures recent == [] <==> history == []
    ensures recent != [] ==> recent[|recent| - 1] == history[|history| - 1]
  {
    hide TurnsCost;
  }

  lemma EnvelopeOf(budget: SessionBudget, frame: Frame, history: seq<Turn>, userMessage: Option<string>,
                   recent: seq<Turn>, maxBooks: int, ranked: seq<Hit>, now: string, refreshedAt: string,
                   envelope: PromptEnvelope)
    requires IsWindow(history, RecentBudget(budget, frame), recent) && envelope.recentBooks == BookIds(recent)
    requires Encloses(budget, frame, ShownTurns(recent, RecentBudget(budget, frame)), envelope)
    requires var turns := ShownTurns(recent, RecentBudget(budget, frame));
             IsSessionDesk(budget, frame, SubjectOf(history, userMessage), turns, recent, maxBooks, ranked, now,
                           refreshedAt, envelope.desk)
    ensures IsEnvelope(budget, frame, history, userMessage, maxBooks, ranked, now, refreshedAt, envelope)
  {
    hide IsSessionDesk, SubjectOf, RecentBudget, Encloses, ShownTurns, TurnsCost;
  }

  // Beside a window, its desk decides.
  lemma WindowOverflows(budget: SessionBudget, frame: Frame, history: seq<Turn>, userMessage: Option<string>,
                        recent: seq<Turn>, maxBooks: int, ranked: seq<Hit>, now: string, refreshedAt: string)
    requires IsWindow(history, RecentBudget(budget, frame), recent)
    ensures var turns, subject := ShownTurns(recent, RecentBudget(budget, frame)), SubjectOf(history, userMessage);
            Overlong(budget, frame, history, userMessage, maxBooks, ranked, now, refreshedAt) <==>
            Overflows(budget, frame, subject, turns, recent, maxBooks, ranked, now, refreshedAt)
  {
    hide IsWindow, Overflows, ShownTurns, RecentBudget, SubjectOf;
    var maxTokens := RecentBudget(budget, frame);
    forall other | IsWindow(history, maxTokens, other)
      ensures other == recent
    {
      WindowIsUnique(history, maxTokens, recent, other);
    }
  }

  method FillEnvelope(budget: SessionBudget, frame: Frame, subject: string, turns: seq<Message>, recent: seq<Turn>,
                      maxBooks: int, ranked: seq<Hit>, admitted: bool, now: string, refreshedAt: string)
    returns (outcome: Result<PromptEnvelope, SessionError>)
    requires budget.Accepted() && 1 <= maxBooks <= MAX_RESULT_BOOKS
    requires MessageTokenCount(BaseMessages(frame.systemPrompt)) + 64 < budget.tokenBudget
    requires MessageTokenCount(turns) <= Max(RecentBudget(budget, frame), 5)
    ensures var refusal := DeskRefusal(DeskBudget(budget.tokenBudget, frame, turns, now), subject, admitted);
            var overflows := Overflows(budget, frame, subject, turns, recent, maxBooks, ranked, now, refreshedAt);
            if refusal.Some? then outcome == Err(refusal.value)
            else if overflows then outcome == Err(AttributeError)
            else outcome.Ok?
    ensures outcome.Ok? ==> Encloses(budget, frame, turns, outcome.value)
    ensures outcome.Ok? ==> outcome.value.recentBooks == BookIds(recent)
    ensures outcome.Ok? ==>
              IsSessionDesk(budget, frame, subject, turns, recent, maxBooks, ranked, now, refreshedAt,
                            outcome.value.desk)
  {
    hide IsSessionDesk, MessageTokenCount, BaseMessages, EstimateTokens, DeskBudget, IsDesk, Frame.Attached,
      Frame.EmptyWrapper, BookIds, RecentBudget, DeskRefusal, Overflows;
    var refreshed :=
      RetrieveContext(budget, frame, subject, turns, recent, maxBooks, ranked, admitted, now, refreshedAt);
    if refreshed.Err? {
      return Err(refreshed.error);
    }
    var working := refreshed.value;
    var messages := frame.Attached(working, turns);
    OnlyDeskOverflows(budget, frame, subject, turns, recent, maxBooks, ranked, now, refreshedAt, working);
    DeskOmitsRecent(budget, frame, subject, turns, recent, maxBooks, ranked, now, refreshedAt, working);
    if working.context == "" {
      WindowFitsAlone(budget, frame, turns, working);
    }
    var enforced := EnforceBudget(budget.tokenBudget, messages, working);
    if enforced.Err? {
      return Err(enforced.error);
    }
    outcome := Ok(PromptEnvelope(messages, enforced.value, BookIds(recent), working));
  }

  lemma OnlyDeskOverflows(budget: SessionBudget, frame: Frame, subject: string, turns: seq<Message>,
                          recent: seq<Turn>, maxBooks: int, ranked: seq<Hit>, now: string, refreshedAt: string,
                          working: WorkingSet)
    requires IsSessionDesk(budget, frame, subject, turns, recent, maxBooks, ranked, now, refreshedAt, working)
    ensures Overflows(budget, frame, subject, turns, recent, maxBooks, ranked, now, refreshedAt) <==>
            MessageTokenCount(frame.Attached(working, turns)) > budget.tokenBudget
  {
    hide IsSessionDesk, MessageTokenCount, Frame.Attached;
    forall desk | IsSessionDesk(budget, frame, subject, turns, recent, maxBooks, ranked, now, refreshedAt, desk)
      ensures desk == working
    {
      DeskIsUnique(budget, frame, subject, turns, recent, maxBooks, ranked, now, refreshedAt, desk, working);
    }
  }

  // Without a desk's text the window always fits.
  lemma WindowFitsAlone(budget: SessionBudget, frame: Frame, turns: seq<Message>, working: WorkingSet)
    requires MessageTokenCount(BaseMessages(frame.systemPrompt)) + 64 < budget.tokenBudget
    requires MessageTokenCount(turns) <= Max(RecentBudget(budget, frame), 5) && working.context == ""
    ensures MessageTokenCount(frame.Attached(working, turns)) <= budget.tokenBudget
  {
    hide EstimateTokens, MessageTokenCount, BaseMessages;
    MessageTokenCountConcat(BaseMessages(frame.systemPrompt), turns);
  }

  lemma DeskOmitsRecent(budget: SessionBudget, frame: Frame, subject: string, turns: seq<Message>, recent: seq<Turn>,
                        maxBooks: int, ranked: seq<Hit>, now: string, refreshedAt: string, working: WorkingSet)
    requires IsSessionDesk(budget, frame, subject, turns, recent, maxBooks, ranked, now, refreshedAt, working)
    ensures forall h :: h in working.hits ==> h.record.id !in BookIds(recent)
  {
    hide EstimateTokens, MessageTokenCount, IsPacking, Rendered, Join, DeskBudget;
    forall h | h in working.hits
      ensures h.record.id !in BookIds(recent)
    {
      assert h in Filter(ranked, set t | t in recent :: t.recordId);
      assert forall i :: 0 <= i < |recent| ==> BookIds(recent)[i] == recent[i].recordId && recent[i] in recent;
    }
  }

  // So neither the repair branch nor the final error is reached while the second reading of the
  // clock renders at most the slack longer than the first.
  lemma NeverOverlong(budget: SessionBudget, frame: Frame, history: seq<Turn>, userMessage: Option<string>,
                      maxBooks: int, ranked: seq<Hit>, now: string, refreshedAt: string)
    requires MessageTokenCount(BaseMessages(frame.systemPrompt)) + 64 < budget.tokenBudget
    requires |refreshedAt| <= |now| + ClockSlack(frame.systemPrompt) && 1 <= maxBooks
    ensures !Overlong(budget, frame, history, userMessage, maxBooks, ranked, now, refreshedAt)
  {
    hide EstimateTokens, MessageTokenCount, IsPacking, Rendered, Join, DeskBudget, IsWindow, BaseMessages, ShownTurns;
    var maxTokens := RecentBudget(budget, frame);
    forall recent | IsWindow(history, maxTokens, recent)
      ensures !Overflows(budget, frame, SubjectOf(history, userMessage), ShownTurns(recent, maxTokens), recent,
                         maxBooks, ranked, now, refreshedAt)
    {
      WindowNeverOverflows(budget, frame, history, SubjectOf(history, userMessage), recent, maxBooks, ranked, now,
                           refreshedAt);
    }
  }

  lemma WindowNeverOverflows(budget: SessionBudget, frame: Frame, history: seq<Turn>, subject: string,
                             recent: seq<Turn>, maxBooks: int, ranked: seq<Hit>, now: string, refreshedAt: string)
    requires MessageTokenCount(BaseMessages(frame.systemPrompt)) + 64 < budget.tokenBudget
    requires |refreshedAt| <= |now| + ClockSlack(frame.systemPrompt) && 1 <= maxBooks
    requires IsWindow(history, RecentBudget(budget, frame), recent)
    ensures var turns := ShownTurns(recent, RecentBudget(budget, frame));
            !Overflows(budget, frame, subject, turns, recent, maxBooks, ranked, now, refreshedAt)
  {
    hide MessageTokenCount, BaseMessages, ShownTurns, RecentBudget, Frame.Attached, IsDesk, IsWindow, EstimateTokens;
    var turns := ShownTurns(recent, RecentBudget(budget, frame));
    WindowFits(history, RecentBudget(budget, frame), recent);
    ShownTurnsCost(recent, RecentBudget(budget, frame));
    forall desk | IsSessionDesk(budget, frame, subject, turns, recent, maxBooks, ranked, now, refreshedAt, desk)
      ensures MessageTokenCount(frame.Attached(desk, turns)) <= budget.tokenBudget
    {
      if desk.context == "" {
        WindowFitsAlone(budget, frame, turns, desk);
      } else {
        DeskTextFits(budget, frame, subject, turns, recent, maxBooks, ranked, now, refreshedAt, desk);
        DeskStaysWithinBudget(budget.tokenBudget, frame, turns, desk, now);
      }
    }
  }

  lemma DeskTextFits(budget: SessionBudget, frame: Frame, subject: string, turns: seq<Message>, recent: seq<Turn>,
                     maxBooks: int, ranked: seq<Hit>, now: string, refreshedAt: string, desk: WorkingSet)
    requires IsSessionDesk(budget, frame, subject, turns, recent, maxBooks, ranked, now, refreshedAt, desk)
    requires desk.context != ""
    ensures EstimateTokens(desk.context) <= DeskBudget(budget.tokenBudget, frame, turns, now)
    ensures desk.refreshedAt == refreshedAt
  {
    hide EstimateTokens, IsPacking, Rendered, Join, DeskBudget, Filter;
  }
}
