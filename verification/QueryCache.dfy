// The query cache: protected from stale answers only by a generation that every write bumps
// before and after it touches SQLite, and keyed by a text that keeps most of a request.

module QueryCache {
  import opened Results
  import opened Models
  import opened Collections
  import opened Values
  import opened Filters
  import opened Scopes
  import opened RecordCache

  type Rows = map<RecordKey, Row>

  // A query but for its filters: the settings stand for its text, limit, minimum score, weights
  // and embedder, which are texts and numbers.
  datatype Question = Question(namespace: string, settings: string, selection: ScopeSelection)

  datatype Request = Request(question: Question, filters: Option<Dict>)
  {
    // Only what the cache identity keeps of the selection.
    function Asks(): Question {
      var (scopes, session, teams) := question.selection.CacheIdentity();
      question.(selection := ScopeSelection(scopes, session, teams))
    }
  }

  // What a request is cached under, next to the generation.
  datatype QueryKey = QueryKey(question: Question, filters: Json)

  function KeyOf(request: Request): QueryKey {
    QueryKey(request.Asks(), Rendering(request.filters))
  }

  lemma KeyKeepsVisibility(request: Request, record: ContextRecord)
    ensures request.Asks().selection.Allows(record) <==> request.question.selection.Allows(record)
  {
  }

  // Ranking is any function of the question, the listed rows that the filters match, the whole
  // store as the search finds it, and the clock.
  type Ranker = (Question, Rows, Rows, Time) -> seq<RecordKey>

  // A row without its access time, which reads may touch at any moment.
  function Plain(row: Row): Row {
    row.(accessedAt := 0.0)
  }

  // The rows without their access times.
  function Bare(rows: Rows): Rows {
    map k | k in rows :: Plain(rows[k])
  }

  // The rows a question may see, as one SELECT returns them.
  function Visible(store: Rows, question: Question, now: Time): Rows {
    map k | k in store && store[k].record.namespace == question.namespace
            && question.selection.Allows(store[k].record) && !store[k].record.Expired(now)
      :: store[k]
  }

  // The rows of a listing that have not expired since.
  function StillLive(rows: Rows, now: Time): Rows {
    map k | k in rows && !rows[k].record.Expired(now) :: rows[k]
  }

  function Pick(rows: Rows, order: seq<RecordKey>): seq<Row> {
    if order == [] then []
    else if order[0] in rows then [rows[order[0]]] + Pick(rows, order[1..])
    else Pick(rows, order[1..])
  }

  function Matching(rows: Rows, filters: Option<Dict>): Rows {
    map k | k in rows && Matches(rows[k].record.metadata, filters) :: rows[k]
  }

  // The ranked rows that match the filters.
  function Ranked(rank: Ranker, request: Request, listed: Rows, corpus: Rows, at: Time): seq<Row> {
    var matching := Matching(listed, request.filters);
    Pick(matching, rank(request.Asks(), matching, corpus, at))
  }

  function LivePlain(rows: seq<Row>, now: Time): seq<Row> {
    if rows == [] then []
    else if rows[0].record.Expired(now) then LivePlain(rows[1..], now)
    else [Plain(rows[0])] + LivePlain(rows[1..], now)
  }

  // A cached answer, the request it was computed for, and what it was ranked from.
  datatype Answer = Answer(asked: Request, listed: Rows, corpus: Rows, at: Time, hits: seq<Row>)

  // A query under way, and at the end what it was given.
  datatype Reader =
    | Keyed(request: Request, gen: nat)
    | Listed(request: Request, gen: nat, listed: Rows)
    | Searched(request: Request, gen: nat, listed: Rows, corpus: Rows)
    | Publishing(request: Request, gen: nat, listed: Rows, corpus: Rows, at: Time, waiting: seq<Row>, done: seq<Row>)
    | Answered(request: Request, gen: nat, answer: Answer)
  {
    // The answer it is publishing, if all that waits is published.
    function Draft(): Answer
      requires Publishing?
    {
      Answer(request, listed, corpus, at, done + waiting)
    }
  }

  datatype Writer = Begun | Changed

  datatype State = State(
    store: Rows,
    generation: nat,
    writers: map<nat, Writer>,
    readers: map<nat, Reader>,
    entries: map<(nat, QueryKey), Answer>,
    now: Time)

  datatype Step =
    | Begin(writer: nat)
    | Change(writer: nat, result: Rows)
    | Finish(writer: nat)
    | Abort(writer: nat)
    | MakeKey(reader: nat, request: Request)
    | LookUp(reader: nat)
    | ListRecords(reader: nat)
    | Search(reader: nat)
    | Rank(reader: nat)
    | PublishOne(reader: nat, at: Time)
    | CacheHits(reader: nat)
    | TouchRow(touched: RecordKey, at: Time)
    | ExpireRow(expired: RecordKey)
    | DropEntries(dropped: set<(nat, QueryKey)>)
    | Tick(at: Time)
  {
    predicate MovesReader() {
      MakeKey? || ListRecords? || Search? || Rank? || PublishOne? || CacheHits?
    }
  }

  // A cached answer is used only while none of its hits has expired.
  ghost predicate Found(s: State, reader: Reader) {
    && (reader.gen, KeyOf(reader.request)) in s.entries
    && forall h :: h in s.entries[(reader.gen, KeyOf(reader.request))].hits ==> !h.record.Expired(s.now)
  }

  ghost predicate Enabled(s: State, step: Step) {
    match step
    case Begin(w) => w !in s.writers
    case Change(w, _) => w in s.writers
    case Finish(w) => w in s.writers
    case Abort(w) => w in s.writers && s.writers[w].Begun?
    case MakeKey(r, request) => r !in s.readers && HasKey(request.filters)
    case LookUp(r) => r in s.readers && s.readers[r].Keyed? && Found(s, s.readers[r])
    case ListRecords(r) => r in s.readers && s.readers[r].Keyed?
    case Search(r) => r in s.readers && s.readers[r].Listed?
    case Rank(r) => r in s.readers && s.readers[r].Searched?
    case PublishOne(r, _) => r in s.readers && s.readers[r].Publishing? && s.readers[r].waiting != []
    case CacheHits(r) => r in s.readers && s.readers[r].Publishing? && s.readers[r].waiting == []
    case TouchRow(k, _) => k in s.store
    case ExpireRow(k) => k in s.store && s.store[k].record.Expired(s.now)
    case DropEntries(_) => true
    case Tick(at) => s.now <= at
  }

  // The stored row is still the one that was ranked.
  predicate Unchanged(store: Rows, hit: Row, now: Time) {
    var k := hit.record.Key();
    && k in store && !store[k].record.Expired(now)
    && store[k].updatedAt == hit.updatedAt && store[k].contentHash == hit.contentHash
    && store[k].record.SameVisibility(hit.record)
  }

  // A search that ranks what it has read.
  function Ordered(reader: Reader, rank: Ranker, now: Time): Reader
    requires reader.Searched?
  {
    var hits := Ranked(rank, reader.request, reader.listed, reader.corpus, now);
    Publishing(reader.request, reader.gen, reader.listed, reader.corpus, now, hits, [])
  }

  function Next(s: State, rank: Ranker, step: Step): State
    requires Enabled(s, step)
  {
    match step
    case Begin(w) => s.(generation := s.generation + 1, writers := s.writers[w := Begun])
    case Change(w, result) => s.(store := result, writers := s.writers[w := Changed])
    case Finish(w) => s.(generation := s.generation + 1, writers := s.writers - {w})
    case Abort(w) => s.(writers := s.writers - {w})
    case MakeKey(r, request) => s.(readers := s.readers[r := Keyed(request, s.generation)])
    case LookUp(r) =>
      var reader := s.readers[r];
      var answer := s.entries[(reader.gen, KeyOf(reader.request))];
      s.(readers := s.readers[r := Answered(reader.request, reader.gen, answer)])
    case ListRecords(r) =>
      var reader := s.readers[r];
      var listed := Visible(s.store, reader.request.Asks(), s.now);
      s.(readers := s.readers[r := Listed(reader.request, reader.gen, listed)])
    case Search(r) =>
      var reader := s.readers[r];
      s.(readers := s.readers[r := Searched(reader.request, reader.gen, reader.listed, s.store)])
    case Rank(r) =>
      s.(readers := s.readers[r := Ordered(s.readers[r], rank, s.now)])
    case PublishOne(r, at) =>
      var reader := s.readers[r];
      var hit := reader.waiting[0];
      var k := hit.record.Key();
      if Unchanged(s.store, hit, s.now) then
        var current := s.store[k].(accessedAt := at);
        s.(store := s.store[k := current],
           readers := s.readers[r := reader.(waiting := reader.waiting[1..], done := reader.done + [current])])
      else s.(readers := s.readers[r := reader.(waiting := reader.waiting[1..])])
    case CacheHits(r) =>
      var reader := s.readers[r];
      s.(readers := s.readers[r := Answered(reader.request, reader.gen, reader.Draft())],
         entries := s.entries[(reader.gen, KeyOf(reader.request)) := reader.Draft()])
    case TouchRow(k, at) => s.(store := s.store[k := s.store[k].(accessedAt := at)])
    case ExpireRow(k) => s.(store := s.store - {k})
    case DropEntries(dropped) => s.(entries := s.entries - dropped)
    case Tick(at) => s.(now := at)
  }

  // ---- Invariants ----

  ghost predicate KeyedRows(store: Rows) {
    forall k :: k in store ==> store[k].record.Key() == k
  }

  // No write has reached SQLite without its second bump.
  ghost predicate NoPendingWrite(s: State) {
    forall w :: w in s.writers ==> s.writers[w].Begun?
  }

  // A listing taken earlier shows what it would show now, up to rows expired since.
  ghost predicate UpToDate(rows: Rows, store: Rows, question: Question, now: Time) {
    Bare(StillLive(rows, now)) == Bare(Visible(store, question, now))
  }

  // And so does the store that was searched.
  ghost predicate Current(corpus: Rows, store: Rows, now: Time) {
    Bare(StillLive(corpus, now)) == Bare(StillLive(store, now))
  }

  ghost predicate FreshAnswer(store: Rows, now: Time, rank: Ranker, answer: Answer) {
    && UpToDate(answer.listed, store, answer.asked.Asks(), now) && Current(answer.corpus, store, now)
    && LivePlain(answer.hits, now)
       == LivePlain(Ranked(rank, answer.asked, answer.listed, answer.corpus, answer.at), now)
  }

  ghost predicate FreshReader(store: Rows, now: Time, rank: Ranker, reader: Reader) {
    match reader
    case Keyed(_, _) => true
    case Listed(request, _, listed) => UpToDate(listed, store, request.Asks(), now)
    case Searched(request, _, listed, corpus) =>
      UpToDate(listed, store, request.Asks(), now) && Current(corpus, store, now)
    case Publishing(_, _, _, _, _, _, _) => FreshAnswer(store, now, rank, reader.Draft())
    case Answered(_, _, answer) => FreshAnswer(store, now, rank, answer)
  }

  ghost predicate GenerationInv(s: State) {
    && (forall e :: e in s.entries ==> e.0 <= s.generation)
    && (forall r :: r in s.readers ==> s.readers[r].gen <= s.generation)
  }

  ghost predicate FreshEntries(s: State, rank: Ranker) {
    forall e :: e in s.entries && e.0 == s.generation ==> FreshAnswer(s.store, s.now, rank, s.entries[e])
  }

  ghost predicate FreshReaders(s: State, rank: Ranker) {
    forall r :: r in s.readers && s.readers[r].gen == s.generation ==> FreshReader(s.store, s.now, rank, s.readers[r])
  }

  ghost predicate FreshInv(s: State, rank: Ranker) {
    NoPendingWrite(s) ==> FreshEntries(s, rank) && FreshReaders(s, rank)
  }

  // Whatever a query is given, cached or not, is in its namespace and allowed to it.
  ghost predicate AllowedRows(question: Question, rows: seq<Row>) {
    forall row :: row in rows ==> row.record.namespace == question.namespace && question.selection.Allows(row.record)
  }

  ghost predicate Listing(question: Question, listed: Rows) {
    forall k :: k in listed ==>
      && listed[k].record.Key() == k
      && listed[k].record.namespace == question.namespace && question.selection.Allows(listed[k].record)
  }

  ghost predicate AnswersKey(key: QueryKey, answer: Answer) {
    KeyOf(answer.asked) == key && AllowedRows(key.question, answer.hits)
  }

  ghost predicate WellFormedReader(reader: Reader) {
    match reader
    case Keyed(_, _) => true
    case Listed(request, _, listed) => Listing(request.Asks(), listed)
    case Searched(request, _, listed, _) => Listing(request.Asks(), listed)
    case Publishing(request, _, listed, _, _, waiting, done) =>
      && Listing(request.Asks(), listed) && AllowedRows(request.Asks(), done)
      && forall h :: h in waiting ==> h.record.Key() in listed && listed[h.record.Key()] == h
    case Answered(request, _, answer) => AnswersKey(KeyOf(request), answer)
  }

  ghost predicate ShapeInv(s: State) {
    && KeyedRows(s.store)
    && (forall e :: e in s.entries ==> AnswersKey(e.1, s.entries[e]))
    && (forall r :: r in s.readers ==> WellFormedReader(s.readers[r]))
  }

  ghost predicate Inv(s: State, rank: Ranker) {
    GenerationInv(s) && ShapeInv(s) && FreshInv(s, rank)
  }

  // A write files every row under its own key.
  ghost predicate Admissible(s: State, step: Step) {
    Enabled(s, step) && (step.Change? ==> KeyedRows(step.result))
  }

  ghost predicate Start(s: State) {
    KeyedRows(s.store) && s.writers == map[] && s.readers == map[] && s.entries == map[]
  }

  // ---- What reads, touches and the clock leave alone ----

  lemma LiveTouched(store: Rows, k: RecordKey, at: Time, now: Time)
    requires k in store
    ensures Bare(StillLive(store[k := store[k].(accessedAt := at)], now)) == Bare(StillLive(store, now))
  {
    hide ContextRecord.Expired;
    var before, after := Bare(StillLive(store, now)), Bare(StillLive(store[k := store[k].(accessedAt := at)], now));
    assert forall j :: j in before <==> j in after;
    assert forall j :: j in before ==> before[j] == after[j];
  }

  lemma VisibleTouched(store: Rows, k: RecordKey, at: Time, question: Question, now: Time)
    requires k in store
    ensures var touched := store[k := store[k].(accessedAt := at)];
            Bare(Visible(touched, question, now)) == Bare(Visible(store, question, now))
  {
    hide ContextRecord.Expired, ScopeSelection.Allows;
    var touched := store[k := store[k].(accessedAt := at)];
    var before, after := Bare(Visible(store, question, now)), Bare(Visible(touched, question, now));
    assert forall j :: j in before <==> j in after;
    assert forall j :: j in before ==> before[j] == after[j];
  }

  lemma TouchIsInvisible(store: Rows, k: RecordKey, at: Time, question: Question, now: Time)
    requires k in store
    ensures var touched := store[k := store[k].(accessedAt := at)];
            && Bare(Visible(touched, question, now)) == Bare(Visible(store, question, now))
            && Bare(StillLive(touched, now)) == Bare(StillLive(store, now))
  {
    hide Bare, StillLive, Visible;
    LiveTouched(store, k, at, now);
    VisibleTouched(store, k, at, question, now);
  }

  lemma ExpiryIsInvisible(store: Rows, k: RecordKey, question: Question, now: Time)
    requires k in store && store[k].record.Expired(now)
    ensures Bare(Visible(store - {k}, question, now)) == Bare(Visible(store, question, now))
    ensures Bare(StillLive(store - {k}, now)) == Bare(StillLive(store, now))
  {
  }

  lemma BareLater(rows: Rows, now: Time, later: Time)
    requires now <= later
    ensures Bare(StillLive(rows, later)) == StillLive(Bare(StillLive(rows, now)), later)
  {
  }

  lemma UpToDateLater(rows: Rows, store: Rows, question: Question, now: Time, later: Time)
    requires now <= later && UpToDate(rows, store, question, now)
    ensures UpToDate(rows, store, question, later)
  {
    BareLater(rows, now, later);
    assert Bare(Visible(store, question, later)) == StillLive(Bare(Visible(store, question, now)), later);
  }

  lemma CurrentLater(corpus: Rows, store: Rows, now: Time, later: Time)
    requires now <= later && Current(corpus, store, now)
    ensures Current(corpus, store, later)
  {
    hide Bare, StillLive;
    BareLater(corpus, now, later);
    BareLater(store, now, later);
  }

  lemma {:induction false} LivePlainLater(rows: seq<Row>, now: Time, later: Time)
    requires now <= later
    ensures LivePlain(rows, later) == LivePlain(LivePlain(rows, now), later)
  {
    if rows != [] {
      LivePlainLater(rows[1..], now, later);
    }
  }

  lemma {:induction false} LivePlainConcat(a: seq<Row>, b: seq<Row>, now: Time)
    ensures LivePlain(a + b, now) == LivePlain(a, now) + LivePlain(b, now)
  {
    hide Plain;
    if a == [] {
      assert a + b == b;
    } else {
      LivePlainConcat(a[1..], b, now);
      assert (a + b)[1..] == a[1..] + b;
      ConcatAssociates([Plain(a[0])], LivePlain(a[1..], now), LivePlain(b, now));
    }
  }

  lemma {:induction false} PickedAreListed(rows: Rows, order: seq<RecordKey>)
    ensures forall h :: h in Pick(rows, order) ==> exists k :: k in rows && rows[k] == h
  {
    if order != [] {
      PickedAreListed(rows, order[1..]);
    }
  }

  lemma RankedAreListed(rank: Ranker, request: Request, listed: Rows, corpus: Rows, at: Time, h: Row)
    requires h in Ranked(rank, request, listed, corpus, at)
    ensures exists k :: k in listed && listed[k] == h && Matches(h.record.metadata, request.filters)
  {
    hide Matches, Pick;
    var matching := Matching(listed, request.filters);
    PickedAreListed(matching, rank(request.Asks(), matching, corpus, at));
  }

  lemma FreshAnswerLater(store: Rows, now: Time, later: Time, rank: Ranker, answer: Answer)
    requires now <= later && FreshAnswer(store, now, rank, answer)
    ensures FreshAnswer(store, later, rank, answer)
  {
    hide UpToDate, Current, Ranked, LivePlain;
    UpToDateLater(answer.listed, store, answer.asked.Asks(), now, later);
    CurrentLater(answer.corpus, store, now, later);
    LivePlainLater(answer.hits, now, later);
    LivePlainLater(Ranked(rank, answer.asked, answer.listed, answer.corpus, answer.at), now, later);
  }

  // In an up-to-date listing, a hit is unchanged in the store exactly until it expires.
  lemma UnchangedUntilExpired(store: Rows, now: Time, question: Question, listed: Rows, hit: Row)
    requires UpToDate(listed, store, question, now) && Listing(question, listed) && KeyedRows(store)
    requires hit.record.Key() in listed && listed[hit.record.Key()] == hit
    ensures Unchanged(store, hit, now) <==> !hit.record.Expired(now)
    ensures Unchanged(store, hit, now) ==>
              hit.record.Key() in store && Plain(store[hit.record.Key()]) == Plain(hit)
  {
    var k := hit.record.Key();
    var live, visible := Bare(StillLive(listed, now)), Bare(Visible(store, question, now));
    assert k in live <==> !hit.record.Expired(now);
    assert k in visible ==> visible[k] == Plain(store[k]);
    assert k in live ==> live[k] == Plain(hit);
    assert Unchanged(store, hit, now) ==> k in visible;
  }

  // Publishing one hit keeps the answer fresh: a hit that is dropped has expired.
  lemma PublishKeepsFresh(store: Rows, now: Time, rank: Ranker, reader: Reader, at: Time)
    requires reader.Publishing? && reader.waiting != [] && WellFormedReader(reader) && KeyedRows(store)
    requires FreshReader(store, now, rank, reader)
    ensures var hit := reader.waiting[0];
            var k := hit.record.Key();
            var rest := reader.(waiting := reader.waiting[1..]);
            if Unchanged(store, hit, now) then
              var current := store[k].(accessedAt := at);
              FreshReader(store[k := current], now, rank, rest.(done := reader.done + [current]))
            else
              FreshReader(store, now, rank, rest)
  {
    hide UpToDate, Current, Unchanged, Ranked, Plain, LivePlain;
    var hit := reader.waiting[0];
    var k := hit.record.Key();
    var waiting, done, question := reader.waiting, reader.done, reader.request.Asks();
    assert hit in waiting && reader.listed[k] == hit;
    UnchangedUntilExpired(store, now, question, reader.listed, hit);
    if Unchanged(store, hit, now) {
      var current := store[k].(accessedAt := at);
      PublishedIsLive(store, now, hit, at);
      SwapHead(done, waiting, current, now);
      UpToDateTouched(reader.listed, reader.corpus, store, question, now, k, at);
    } else {
      DropHead(done, waiting, now);
    }
  }

  lemma SwapHead(done: seq<Row>, waiting: seq<Row>, current: Row, now: Time)
    requires waiting != [] && LivePlain([current], now) == LivePlain([waiting[0]], now)
    ensures LivePlain(done + [current] + waiting[1..], now) == LivePlain(done + waiting, now)
  {
    assert waiting == [waiting[0]] + waiting[1..];
    LivePlainConcat(done, waiting, now);
    LivePlainConcat([waiting[0]], waiting[1..], now);
    LivePlainConcat(done + [current], waiting[1..], now);
    LivePlainConcat(done, [current], now);
  }

  lemma DropHead(done: seq<Row>, waiting: seq<Row>, now: Time)
    requires waiting != [] && waiting[0].record.Expired(now)
    ensures LivePlain(done + waiting[1..], now) == LivePlain(done + waiting, now)
  {
    assert waiting == [waiting[0]] + waiting[1..];
    LivePlainConcat(done, waiting, now);
    LivePlainConcat(done, waiting[1..], now);
  }

  lemma PublishedIsLive(store: Rows, now: Time, hit: Row, at: Time)
    requires Unchanged(store, hit, now) && !hit.record.Expired(now)
    requires Plain(store[hit.record.Key()]) == Plain(hit)
    ensures hit.record.Key() in store
    ensures LivePlain([store[hit.record.Key()].(accessedAt := at)], now) == LivePlain([hit], now)
  {
  }

  lemma UpToDateTouched(rows: Rows, corpus: Rows, store: Rows, question: Question, now: Time, k: RecordKey, at: Time)
    requires k in store
    ensures var touched := store[k := store[k].(accessedAt := at)];
            && (UpToDate(rows, touched, question, now) <==> UpToDate(rows, store, question, now))
            && (Current(corpus, touched, now) <==> Current(corpus, store, now))
  {
    TouchIsInvisible(store, k, at, question, now);
  }

  // ---- Every step keeps the invariants ----

  lemma PublishKeepsShape(store: Rows, now: Time, reader: Reader, at: Time)
    requires reader.Publishing? && reader.waiting != [] && WellFormedReader(reader) && KeyedRows(store)
    requires Unchanged(store, reader.waiting[0], now)
    ensures var k := reader.waiting[0].record.Key();
            var current := store[k].(accessedAt := at);
            && KeyedRows(store[k := current])
            && WellFormedReader(reader.(waiting := reader.waiting[1..], done := reader.done + [current]))
  {
    hide LivePlain, Ranked;
    var hit := reader.waiting[0];
    assert hit in reader.waiting && store[hit.record.Key()].record.Key() == hit.record.Key();
  }

  lemma RankKeepsShape(rank: Ranker, reader: Reader, now: Time)
    requires reader.Searched? && WellFormedReader(reader)
    ensures WellFormedReader(Ordered(reader, rank, now))
  {
    hide Ranked;
    forall h | h in Ranked(rank, reader.request, reader.listed, reader.corpus, now)
      ensures h.record.Key() in reader.listed && reader.listed[h.record.Key()] == h
    {
      RankedAreListed(rank, reader.request, reader.listed, reader.corpus, now, h);
    }
  }

  // The reader that takes a step.
  lemma MovedShape(s: State, rank: Ranker, step: Step)
    requires ShapeInv(s) && Admissible(s, step) && (step.MovesReader() || step.LookUp?)
    ensures var after := Next(s, rank, step);
            KeyedRows(after.store) && WellFormedReader(after.readers[step.reader])
    ensures step.CacheHits? ==> AnswersKey(KeyOf(s.readers[step.reader].request), s.readers[step.reader].Draft())
  {
    hide StillLive, Ranked, LivePlain, Unchanged, WellFormedReader, AnswersKey, Visible, KeyOf, Ordered;
    match step {
      case MakeKey(r, request) => KeyedShape(request, s.generation);
      case LookUp(r) =>
        var reader := s.readers[r];
        AnsweredShape(reader.request, reader.gen, s.entries[(reader.gen, KeyOf(reader.request))]);
      case ListRecords(r) => ListingKeepsShape(s.store, s.now, s.readers[r]);
      case Search(r) => SearchKeepsShape(s.store, s.readers[r]);
      case Rank(r) => RankKeepsShape(rank, s.readers[r], s.now);
      case PublishOne(r, at) =>
        if Unchanged(s.store, s.readers[r].waiting[0], s.now) {
          PublishKeepsShape(s.store, s.now, s.readers[r], at);
        } else {
          DropKeepsShape(s.readers[r]);
        }
      case CacheHits(r) =>
        DraftAnswersKey(s.readers[r]);
        AnsweredShape(s.readers[r].request, s.readers[r].gen, s.readers[r].Draft());
    }
  }

  lemma ShapeStep(s: State, rank: Ranker, step: Step)
    requires ShapeInv(s) && Admissible(s, step)
    ensures ShapeInv(Next(s, rank, step))
  {
    hide StillLive, Ranked, LivePlain, Unchanged, WellFormedReader, AnswersKey, Visible, Found, KeyOf, Ordered;
    if step.MovesReader() || step.LookUp? {
      MovedShape(s, rank, step);
    }
  }

  lemma KeyedShape(request: Request, gen: nat)
    ensures WellFormedReader(Keyed(request, gen))
  {
  }

  lemma AnsweredShape(request: Request, gen: nat, answer: Answer)
    requires AnswersKey(KeyOf(request), answer)
    ensures WellFormedReader(Answered(request, gen, answer))
  {
  }

  lemma ListingKeepsShape(store: Rows, now: Time, reader: Reader)
    requires reader.Keyed? && KeyedRows(store)
    ensures WellFormedReader(Listed(reader.request, reader.gen, Visible(store, reader.request.Asks(), now)))
  {
  }

  lemma SearchKeepsShape(store: Rows, reader: Reader)
    requires reader.Listed? && WellFormedReader(reader)
    ensures WellFormedReader(Searched(reader.request, reader.gen, reader.listed, store))
  {
  }

  lemma DropKeepsShape(reader: Reader)
    requires reader.Publishing? && reader.waiting != [] && WellFormedReader(reader)
    ensures WellFormedReader(reader.(waiting := reader.waiting[1..]))
  {
    assert reader.waiting == [reader.waiting[0]] + reader.waiting[1..];
  }

  lemma DraftAnswersKey(reader: Reader)
    requires reader.Publishing? && reader.waiting == [] && WellFormedReader(reader)
    ensures AnswersKey(KeyOf(reader.request), reader.Draft())
  {
  }

  lemma GenerationStep(s: State, rank: Ranker, step: Step)
    requires GenerationInv(s) && Enabled(s, step)
    ensures GenerationInv(Next(s, rank, step))
    ensures step.Begin? || step.Finish? ==>
              var after := Next(s, rank, step);
              && (forall e :: e in after.entries ==> e.0 < after.generation)
              && (forall r :: r in after.readers ==> after.readers[r].gen < after.generation)
  {
    hide Visible, Ranked, Unchanged, KeyOf, HasKey, Found;
  }

  lemma InvisibleSteps(s: State, rank: Ranker, step: Step, question: Question)
    requires Enabled(s, step)
    requires step.PublishOne? || step.TouchRow? || step.ExpireRow?
    ensures var after := Next(s, rank, step);
            && after.now == s.now
            && Bare(Visible(after.store, question, s.now)) == Bare(Visible(s.store, question, s.now))
            && Bare(StillLive(after.store, s.now)) == Bare(StillLive(s.store, s.now))
  {
    hide Visible, StillLive, Bare, Found;
    match step {
      case PublishOne(r, at) =>
        var k := s.readers[r].waiting[0].record.Key();
        if Unchanged(s.store, s.readers[r].waiting[0], s.now) {
          TouchIsInvisible(s.store, k, at, question, s.now);
        }
      case TouchRow(k, at) => TouchIsInvisible(s.store, k, at, question, s.now);
      case ExpireRow(k) => ExpiryIsInvisible(s.store, k, question, s.now);
    }
  }

  lemma AnswerStep(s: State, rank: Ranker, step: Step, answer: Answer)
    requires Enabled(s, step) && !step.Change?
    requires FreshAnswer(s.store, s.now, rank, answer)
    ensures FreshAnswer(Next(s, rank, step).store, Next(s, rank, step).now, rank, answer)
  {
    hide Visible, LivePlain, Ranked, StillLive, Bare, Unchanged, Found;
    if step.PublishOne? || step.TouchRow? || step.ExpireRow? {
      InvisibleSteps(s, rank, step, answer.asked.Asks());
    } else if step.Tick? {
      FreshAnswerLater(s.store, s.now, step.at, rank, answer);
    }
  }

  lemma ReadsStep(s: State, rank: Ranker, step: Step, question: Question, listed: Rows, corpus: Rows)
    requires Enabled(s, step) && !step.Change?
    ensures var after := Next(s, rank, step);
            && (UpToDate(listed, s.store, question, s.now) ==> UpToDate(listed, after.store, question, after.now))
            && (Current(corpus, s.store, s.now) ==> Current(corpus, after.store, after.now))
  {
    hide Visible, Ranked, StillLive, Bare, Unchanged, Found;
    if step.PublishOne? || step.TouchRow? || step.ExpireRow? {
      InvisibleSteps(s, rank, step, question);
    } else if step.Tick? {
      if UpToDate(listed, s.store, question, s.now) {
        UpToDateLater(listed, s.store, question, s.now, step.at);
      }
      if Current(corpus, s.store, s.now) {
        CurrentLater(corpus, s.store, s.now, step.at);
      }
    }
  }

  // A reader that does not move.
  lemma WaitingReaderStep(s: State, rank: Ranker, step: Step, reader: Reader)
    requires Enabled(s, step) && !step.Change?
    requires FreshReader(s.store, s.now, rank, reader)
    ensures FreshReader(Next(s, rank, step).store, Next(s, rank, step).now, rank, reader)
  {
    hide Next, Enabled, UpToDate, Current, FreshAnswer;
    match reader {
      case Keyed(_, _) =>
      case Listed(request, _, listed) => ReadsStep(s, rank, step, request.Asks(), listed, map[]);
      case Searched(request, _, listed, corpus) => ReadsStep(s, rank, step, request.Asks(), listed, corpus);
      case Publishing(_, _, _, _, _, _, _) => AnswerStep(s, rank, step, reader.Draft());
      case Answered(_, _, answer) => AnswerStep(s, rank, step, answer);
    }
  }

  // A reader that takes the step itself.
  lemma MovingReaderStep(s: State, rank: Ranker, step: Step)
    requires ShapeInv(s) && Enabled(s, step)
    requires step.MovesReader()
    requires step.MakeKey? || FreshReader(s.store, s.now, rank, s.readers[step.reader])
    ensures var after := Next(s, rank, step);
            step.reader in after.readers && FreshReader(after.store, after.now, rank, after.readers[step.reader])
  {
    match step {
      case MakeKey(_, _) =>
      case ListRecords(r) =>
        hide Bare;
        var listed := Visible(s.store, s.readers[r].request.Asks(), s.now);
        assert StillLive(listed, s.now) == listed;
      case Search(r) =>
        hide Bare, StillLive, Visible;
      case Rank(r) =>
        hide UpToDate, Current, Ranked, LivePlain;
        var reader := s.readers[r];
        var hits := Ranked(rank, reader.request, reader.listed, reader.corpus, s.now);
        assert [] + hits == hits;
      case PublishOne(r, at) =>
        hide Unchanged, LivePlain, UpToDate, Current, Ranked;
        PublishKeepsFresh(s.store, s.now, rank, s.readers[r], at);
      case CacheHits(r) =>
        hide FreshAnswer;
    }
  }

  // No write is left pending by a step unless none was before, or it was just finished.
  lemma QuietBefore(s: State, rank: Ranker, step: Step)
    requires Enabled(s, step)
    ensures NoPendingWrite(Next(s, rank, step)) ==> !step.Change? && (step.Finish? || NoPendingWrite(s))
  {
    var after := Next(s, rank, step);
    assert step.Change? ==> step.writer in after.writers && after.writers[step.writer].Changed?;
    forall w | w in s.writers && !step.Finish? && NoPendingWrite(after)
      ensures s.writers[w].Begun?
    {
      assert !(step.Abort? && step.writer == w) ==> w in after.writers && after.writers[w].Begun?;
    }
  }

  // A reader that finds an answer of the current generation finds a fresh one.
  lemma LookUpStep(s: State, rank: Ranker, step: Step)
    requires Enabled(s, step) && step.LookUp? && FreshEntries(s, rank)
    requires s.readers[step.reader].gen == s.generation
    ensures var after := Next(s, rank, step);
            FreshReader(after.store, after.now, rank, after.readers[step.reader])
  {
    hide FreshAnswer;
  }

  lemma FreshReadersStep(s: State, rank: Ranker, step: Step)
    requires Inv(s, rank) && Admissible(s, step) && NoPendingWrite(Next(s, rank, step))
    ensures FreshReaders(Next(s, rank, step), rank)
  {
    var after := Next(s, rank, step);
    hide Visible, LivePlain, Ranked, StillLive, Unchanged, FreshReader, FreshAnswer, Found, Ordered, KeyOf, HasKey,
      ShapeInv;
    GenerationStep(s, rank, step);
    QuietBefore(s, rank, step);
    forall r | r in after.readers && after.readers[r].gen == after.generation
      ensures FreshReader(after.store, after.now, rank, after.readers[r])
    {
      if step.LookUp? && r == step.reader {
        LookUpStep(s, rank, step);
      } else if step.MovesReader() && r == step.reader {
        MovingReaderStep(s, rank, step);
      } else {
        WaitingReaderStep(s, rank, step, s.readers[r]);
      }
    }
  }

  lemma FreshEntriesStep(s: State, rank: Ranker, step: Step)
    requires Inv(s, rank) && Admissible(s, step) && NoPendingWrite(Next(s, rank, step))
    ensures FreshEntries(Next(s, rank, step), rank)
  {
    var after := Next(s, rank, step);
    hide Visible, LivePlain, Ranked, StillLive, Unchanged, FreshAnswer, Found, Ordered, KeyOf, HasKey, ShapeInv;
    GenerationStep(s, rank, step);
    QuietBefore(s, rank, step);
    forall e | e in after.entries && e.0 == after.generation
      ensures FreshAnswer(after.store, after.now, rank, after.entries[e])
    {
      if step.CacheHits? && e == (s.readers[step.reader].gen, KeyOf(s.readers[step.reader].request)) {
        assert FreshReader(s.store, s.now, rank, s.readers[step.reader]);
      } else {
        AnswerStep(s, rank, step, s.entries[e]);
      }
    }
  }

  lemma StepKeepsInv(s: State, rank: Ranker, step: Step)
    requires Inv(s, rank) && Admissible(s, step)
    ensures Inv(Next(s, rank, step), rank)
  {
    hide ShapeInv, GenerationInv, FreshEntries, FreshReaders;
    ShapeStep(s, rank, step);
    GenerationStep(s, rank, step);
    if NoPendingWrite(Next(s, rank, step)) {
      FreshReadersStep(s, rank, step);
      FreshEntriesStep(s, rank, step);
    }
  }

  // ---- Runs ----

  ghost predicate ValidRun(s: State, rank: Ranker, run: seq<Step>)
    decreases |run|
  {
    run == [] || (Admissible(s, run[0]) && ValidRun(Next(s, rank, run[0]), rank, run[1..]))
  }

  ghost function After(s: State, rank: Ranker, run: seq<Step>): State
    requires ValidRun(s, rank, run)
    decreases |run|
  {
    if run == [] then s else After(Next(s, rank, run[0]), rank, run[1..])
  }

  lemma {:induction false} RunKeepsInv(s: State, rank: Ranker, run: seq<Step>)
    requires Inv(s, rank) && ValidRun(s, rank, run)
    ensures Inv(After(s, rank, run), rank)
    decreases |run|
  {
    hide Inv;
    if run != [] {
      StepKeepsInv(s, rank, run[0]);
      RunKeepsInv(Next(s, rank, run[0]), rank, run[1..]);
    }
  }

  lemma ReachableInv(start: State, rank: Ranker, run: seq<Step>)
    requires Start(start) && ValidRun(start, rank, run)
    ensures Inv(After(start, rank, run), rank)
  {
    RunKeepsInv(start, rank, run);
  }

  // A request that takes its key now is answered from the cache.
  ghost predicate Usable(s: State, request: Request) {
    HasKey(request.filters) && Found(s, Keyed(request, s.generation))
  }

  lemma {:induction false} LivePlainMembers(rows: seq<Row>, now: Time)
    ensures |LivePlain(rows, now)| <= |rows|
    ensures (forall h :: h in rows ==> !h.record.Expired(now)) ==> |LivePlain(rows, now)| == |rows|
    ensures (forall h :: h in rows ==> !h.record.Expired(now)) ==>
              forall i :: 0 <= i < |rows| && i < |LivePlain(rows, now)| ==> LivePlain(rows, now)[i] == Plain(rows[i])
    ensures forall p :: p in LivePlain(rows, now) ==>
              exists i :: 0 <= i < |rows| && p == Plain(rows[i]) && !rows[i].record.Expired(now)
  {
    hide Plain;
    if rows != [] {
      LivePlainMembers(rows[1..], now);
      assert rows == [rows[0]] + rows[1..];
      forall p | p in LivePlain(rows, now)
        ensures exists i :: 0 <= i < |rows| && p == Plain(rows[i]) && !rows[i].record.Expired(now)
      {
        if p in LivePlain(rows[1..], now) {
          var i :| 0 <= i < |rows[1..]| && p == Plain(rows[1..][i]) && !rows[1..][i].record.Expired(now);
          assert rows[i + 1] == rows[1..][i];
        }
      }
    }
  }

  // Requests of one key whose filters are interchangeable get the same ranking.
  lemma SameRanking(rank: Ranker, a: Request, b: Request, listed: Rows, corpus: Rows, at: Time)
    requires KeyOf(a) == KeyOf(b) && Interchangeable(a.filters, b.filters)
    ensures Ranked(rank, a, listed, corpus, at) == Ranked(rank, b, listed, corpus, at)
  {
    hide Matches, Interchangeable, Pick;
    SameMatchesExactly(a.filters, b.filters);
    assert Matching(listed, a.filters) == Matching(listed, b.filters);
  }

  // Under any interleaving, while no write is between SQLite and its second bump, a cache hit
  // is what ranking gave, at some moment, for reads that show exactly what the store shows now:
  // nothing was added, changed or removed since, except rows that have expired. It is ranked
  // for the request that filled the entry, and so for the one that asks if their filters are
  // interchangeable.
  lemma CacheHitIsFresh(start: State, rank: Ranker, run: seq<Step>, request: Request)
    requires Start(start) && ValidRun(start, rank, run)
    requires NoPendingWrite(After(start, rank, run)) && Usable(After(start, rank, run), request)
    ensures var s := After(start, rank, run);
            var (asked, listed, corpus, at, hits) := Parts(s.entries[(s.generation, KeyOf(request))]);
            && KeyOf(asked) == KeyOf(request)
            && UpToDate(listed, s.store, request.Asks(), s.now) && Current(corpus, s.store, s.now)
            && LivePlain(Ranked(rank, asked, listed, corpus, at), s.now)
               == seq(|hits|, i requires 0 <= i < |hits| => Plain(hits[i]))
            && (Interchangeable(asked.filters, request.filters) ==>
                  Ranked(rank, request, listed, corpus, at) == Ranked(rank, asked, listed, corpus, at))
  {
    hide GenerationInv, UpToDate, Current, Ranked, LivePlain, Plain, Interchangeable, AllowedRows, WellFormedReader;
    ReachableInv(start, rank, run);
    var s := After(start, rank, run);
    var answer := s.entries[(s.generation, KeyOf(request))];
    LivePlainMembers(answer.hits, s.now);
    if Interchangeable(answer.asked.filters, request.filters) {
      SameRanking(rank, answer.asked, request, answer.listed, answer.corpus, answer.at);
    }
  }

  function Parts(answer: Answer): (Request, Rows, Rows, Time, seq<Row>) {
    (answer.asked, answer.listed, answer.corpus, answer.at, answer.hits)
  }

  // In particular every record in a cache hit is in the store now, with the same contents.
  lemma CacheHitsAreStored(start: State, rank: Ranker, run: seq<Step>, request: Request, hit: Row)
    requires Start(start) && ValidRun(start, rank, run)
    requires NoPendingWrite(After(start, rank, run)) && Usable(After(start, rank, run), request)
    requires var s := After(start, rank, run); hit in s.entries[(s.generation, KeyOf(request))].hits
    ensures var s := After(start, rank, run);
            exists k :: k in s.store && !s.store[k].record.Expired(s.now) && Plain(s.store[k]) == Plain(hit)
  {
    hide Inv, UpToDate, Current, Ranked, LivePlain, Plain, Visible, StillLive, Interchangeable;
    CacheHitIsFresh(start, rank, run, request);
    var s := After(start, rank, run);
    var (asked, listed, corpus, at, hits) := Parts(s.entries[(s.generation, KeyOf(request))]);
    var ranked := Ranked(rank, asked, listed, corpus, at);
    var i :| 0 <= i < |hits| && hits[i] == hit;
    assert LivePlain(ranked, s.now)[i] == Plain(hit) && Plain(hit) in LivePlain(ranked, s.now);
    LivePlainMembers(ranked, s.now);
    var j :| 0 <= j < |ranked| && Plain(hit) == Plain(ranked[j]) && !ranked[j].record.Expired(s.now);
    RankedAreListed(rank, asked, listed, corpus, at, ranked[j]);
    var k :| k in listed && listed[k] == ranked[j];
    ListedIsStored(listed, s.store, request.Asks(), s.now, k);
  }

  lemma ListedIsStored(listed: Rows, store: Rows, question: Question, now: Time, k: RecordKey)
    requires UpToDate(listed, store, question, now) && k in listed && !listed[k].record.Expired(now)
    ensures k in store && !store[k].record.Expired(now) && Plain(store[k]) == Plain(listed[k])
  {
    var live, visible := Bare(StillLive(listed, now)), Bare(Visible(store, question, now));
    assert live[k] == Plain(listed[k]) && visible[k] == Plain(store[k]);
  }

  // What a query has been given, so far or in the end.
  ghost predicate Given(reader: Reader, hit: Row) {
    || (reader.Publishing? && hit in reader.done)
    || (reader.Answered? && hit in reader.answer.hits)
  }

  // Fresh or cached, at any moment, a query is only ever given records of its namespace that
  // its selection allows, whichever request filled the entry.
  lemma HitsAreAllowed(start: State, rank: Ranker, run: seq<Step>, r: nat, hit: Row)
    requires Start(start) && ValidRun(start, rank, run)
    requires var readers := After(start, rank, run).readers; r in readers && Given(readers[r], hit)
    ensures var question := After(start, rank, run).readers[r].request.question;
            hit.record.namespace == question.namespace && question.selection.Allows(hit.record)
  {
    hide GenerationInv, FreshInv, ScopeSelection.Allows;
    ReachableInv(start, rank, run);
    KeyKeepsVisibility(After(start, rank, run).readers[r].request, hit.record);
  }

  // ---- What an answer was ranked from ----

  // A published row is the ranked one but for its access time and what the stamps do not show.
  predicate SameStamp(ranked: Row, published: Row) {
    && ranked.record.Key() == published.record.Key()
    && ranked.updatedAt == published.updatedAt && ranked.contentHash == published.contentHash
    && ranked.record.SameVisibility(published.record)
  }

  // The published rows are the ranked ones, in order, with some left out.
  predicate Thinned(ranked: seq<Row>, published: seq<Row>) {
    if published == [] then true
    else if ranked == [] then false
    else
      var r, p := |ranked| - 1, |published| - 1;
      || (SameStamp(ranked[r], published[p]) && Thinned(ranked[..r], published[..p]))
      || Thinned(ranked[..r], published)
  }

  ghost predicate Ranking(rank: Ranker, request: Request, answer: Answer) {
    Thinned(Ranked(rank, request, answer.listed, answer.corpus, answer.at), answer.hits)
  }

  // What a query reads at one moment: a listing, the store as the search finds it, the clock.
  datatype Glimpse = OfListing(question: Question, rows: Rows) | OfStore(corpus: Rows) | OfClock(at: Time)

  ghost predicate Shows(s: State, glimpse: Glimpse) {
    match glimpse
    case OfListing(question, rows) => rows == Visible(s.store, question, s.now)
    case OfStore(corpus) => corpus == s.store
    case OfClock(at) => at == s.now
  }

  // It was read at one of the moments, no earlier than the generation.
  ghost predicate WasRead(past: seq<State>, gen: nat, glimpse: Glimpse) {
    exists n :: 0 <= n < |past| && past[n].generation >= gen && Shows(past[n], glimpse)
  }

  ghost predicate SourcedReads(past: seq<State>, gen: nat, request: Request, listed: Rows, corpus: Rows, at: Time) {
    && WasRead(past, gen, OfListing(request.Asks(), listed)) && WasRead(past, gen, OfStore(corpus))
    && WasRead(past, gen, OfClock(at))
  }

  ghost predicate SourcedAnswer(past: seq<State>, rank: Ranker, gen: nat, answer: Answer) {
    && SourcedReads(past, gen, answer.asked, answer.listed, answer.corpus, answer.at)
    && Ranking(rank, answer.asked, answer)
  }

  ghost predicate PartlyPublished(rank: Ranker, reader: Reader)
    requires reader.Publishing?
  {
    var ranked := Ranked(rank, reader.request, reader.listed, reader.corpus, reader.at);
    var n := |ranked| - |reader.waiting|;
    n >= 0 && reader.waiting == ranked[n..] && Thinned(ranked[..n], reader.done)
  }

  ghost predicate SourcedReader(past: seq<State>, rank: Ranker, reader: Reader) {
    match reader
    case Keyed(_, _) => true
    case Listed(request, gen, listed) => WasRead(past, gen, OfListing(request.Asks(), listed))
    case Searched(request, gen, listed, corpus) =>
      WasRead(past, gen, OfListing(request.Asks(), listed)) && WasRead(past, gen, OfStore(corpus))
    case Publishing(request, gen, listed, corpus, at, _, _) =>
      SourcedReads(past, gen, request, listed, corpus, at) && PartlyPublished(rank, reader)
    case Answered(_, gen, answer) => SourcedAnswer(past, rank, gen, answer)
  }

  // Every answer, cached or given, was ranked from reads the run went through.
  ghost predicate Sourced(past: seq<State>, rank: Ranker, s: State) {
    && (forall e :: e in s.entries ==> SourcedAnswer(past, rank, e.0, s.entries[e]))
    && (forall r :: r in s.readers ==> SourcedReader(past, rank, s.readers[r]))
  }

  lemma ReadStays(past: seq<State>, s: State, gen: nat, glimpse: Glimpse)
    requires WasRead(past, gen, glimpse)
    ensures WasRead(past + [s], gen, glimpse)
  {
    hide Shows;
    var n :| 0 <= n < |past| && past[n].generation >= gen && Shows(past[n], glimpse);
    assert (past + [s])[n] == past[n];
  }

  lemma ReadNow(past: seq<State>, gen: nat, glimpse: Glimpse)
    requires past != [] && past[|past| - 1].generation >= gen && Shows(past[|past| - 1], glimpse)
    ensures WasRead(past, gen, glimpse)
  {
  }

  lemma SourcesStay(past: seq<State>, rank: Ranker, s: State, reader: Reader)
    requires SourcedReader(past, rank, reader)
    ensures SourcedReader(past + [s], rank, reader)
  {
    hide WasRead, Ranking, PartlyPublished;
    match reader {
      case Keyed(_, _) =>
      case Listed(request, gen, listed) => ReadStays(past, s, gen, OfListing(request.Asks(), listed));
      case Searched(request, gen, listed, corpus) =>
        ReadStays(past, s, gen, OfListing(request.Asks(), listed));
        ReadStays(past, s, gen, OfStore(corpus));
      case Publishing(request, gen, listed, corpus, at, _, _) =>
        ReadsStay(past, s, gen, request, listed, corpus, at);
      case Answered(_, gen, answer) =>
        ReadsStay(past, s, gen, answer.asked, answer.listed, answer.corpus, answer.at);
    }
  }

  lemma ReadsStay(past: seq<State>, s: State, gen: nat, request: Request, listed: Rows, corpus: Rows, at: Time)
    requires SourcedReads(past, gen, request, listed, corpus, at)
    ensures SourcedReads(past + [s], gen, request, listed, corpus, at)
  {
    hide WasRead;
    ReadStays(past, s, gen, OfListing(request.Asks(), listed));
    ReadStays(past, s, gen, OfStore(corpus));
    ReadStays(past, s, gen, OfClock(at));
  }

  lemma AnswerStays(past: seq<State>, rank: Ranker, s: State, gen: nat, answer: Answer)
    requires SourcedAnswer(past, rank, gen, answer)
    ensures SourcedAnswer(past + [s], rank, gen, answer)
  {
    SourcesStay(past, rank, s, Answered(answer.asked, gen, answer));
  }

  // Publishing one more hit, or leaving it out, thins the ranking a little further.
  lemma PublishThins(store: Rows, now: Time, rank: Ranker, reader: Reader, at: Time)
    requires reader.Publishing? && reader.waiting != [] && PartlyPublished(rank, reader) && KeyedRows(store)
    ensures var hit := reader.waiting[0];
            var rest := reader.(waiting := reader.waiting[1..]);
            if Unchanged(store, hit, now) then
              PartlyPublished(rank, rest.(done := reader.done + [store[hit.record.Key()].(accessedAt := at)]))
            else
              PartlyPublished(rank, rest)
  {
    hide Ranked, Thinned;
    var ranked := Ranked(rank, reader.request, reader.listed, reader.corpus, reader.at);
    var n := |ranked| - |reader.waiting|;
    var hit := reader.waiting[0];
    assert ranked[n] == hit && reader.waiting[1..] == ranked[n + 1..];
    LeftOutThins(ranked, n, reader.done);
    if Unchanged(store, hit, now) {
      PublishedThins(ranked, n, reader.done, store[hit.record.Key()].(accessedAt := at));
    }
  }

  lemma LeftOutThins(ranked: seq<Row>, n: nat, done: seq<Row>)
    requires n < |ranked| && Thinned(ranked[..n], done)
    ensures Thinned(ranked[..n + 1], done)
  {
    hide SameStamp;
    assert ranked[..n + 1][..n] == ranked[..n];
  }

  lemma PublishedThins(ranked: seq<Row>, n: nat, done: seq<Row>, published: Row)
    requires n < |ranked| && Thinned(ranked[..n], done) && SameStamp(ranked[n], published)
    ensures Thinned(ranked[..n + 1], done + [published])
  {
    hide SameStamp;
    assert ranked[..n + 1][..n] == ranked[..n] && (done + [published])[..|done|] == done;
  }

  // The reader that takes a step.
  lemma MovedReaderIsSourced(past: seq<State>, rank: Ranker, step: Step)
    requires past != [] && ShapeInv(past[|past| - 1]) && GenerationInv(past[|past| - 1])
    requires Enabled(past[|past| - 1], step) && Sourced(past, rank, past[|past| - 1])
    requires step.MovesReader() || step.LookUp?
    ensures var after := Next(past[|past| - 1], rank, step);
            SourcedReader(past, rank, after.readers[step.reader])
  {
    hide WasRead, Visible, WellFormedReader, Thinned;
    var s := past[|past| - 1];
    match step {
      case MakeKey(_, _) =>
      case LookUp(r) => hide Ranked;
      case ListRecords(r) =>
        var listed := Visible(s.store, s.readers[r].request.Asks(), s.now);
        ReadNow(past, s.readers[r].gen, OfListing(s.readers[r].request.Asks(), listed));
      case Search(r) =>
        assert SourcedReader(past, rank, s.readers[r]);
        ReadNow(past, s.readers[r].gen, OfStore(s.store));
      case Rank(r) =>
        hide Ranked;
        assert SourcedReader(past, rank, s.readers[r]);
        ReadNow(past, s.readers[r].gen, OfClock(s.now));
        RankedWhole(rank, Ordered(s.readers[r], rank, s.now));
      case PublishOne(r, at) =>
        hide PartlyPublished, Unchanged;
        PublishThins(s.store, s.now, rank, s.readers[r], at);
      case CacheHits(r) =>
        AllPublished(rank, s.readers[r]);
    }
  }

  lemma RankedWhole(rank: Ranker, reader: Reader)
    requires reader.Publishing? && reader.done == []
    requires reader.waiting == Ranked(rank, reader.request, reader.listed, reader.corpus, reader.at)
    ensures PartlyPublished(rank, reader)
  {
  }

  lemma AllPublished(rank: Ranker, reader: Reader)
    requires reader.Publishing? && reader.waiting == [] && PartlyPublished(rank, reader)
    ensures Ranking(rank, reader.request, reader.Draft())
  {
    hide Ranked;
    var ranked := Ranked(rank, reader.request, reader.listed, reader.corpus, reader.at);
    assert ranked[..|ranked|] == ranked && reader.done + [] == reader.done;
  }

  lemma StepKeepsSources(past: seq<State>, rank: Ranker, step: Step)
    requires past != [] && Inv(past[|past| - 1], rank) && Admissible(past[|past| - 1], step)
    requires Sourced(past, rank, past[|past| - 1])
    ensures var after := Next(past[|past| - 1], rank, step);
            Sourced(past + [after], rank, after)
  {
    hide FreshInv, ShapeInv, GenerationInv, SourcedAnswer, SourcedReader, Visible, Ranked, Unchanged, KeyOf;
    var s := past[|past| - 1];
    var after := Next(s, rank, step);
    if step.MovesReader() || step.LookUp? {
      MovedReaderIsSourced(past, rank, step);
    }
    forall r | r in after.readers
      ensures SourcedReader(past + [after], rank, after.readers[r])
    {
      SourcesStay(past, rank, after, after.readers[r]);
    }
    forall e | e in after.entries
      ensures SourcedAnswer(past + [after], rank, e.0, after.entries[e])
    {
      if step.CacheHits? && e == (s.readers[step.reader].gen, KeyOf(s.readers[step.reader].request)) {
        CachedIsSourced(past, rank, after.readers[step.reader]);
      }
      AnswerStays(past, rank, after, e.0, after.entries[e]);
    }
  }

  lemma CachedIsSourced(past: seq<State>, rank: Ranker, reader: Reader)
    requires reader.Answered? && SourcedReader(past, rank, reader)
    ensures SourcedAnswer(past, rank, reader.gen, reader.answer)
  {
  }

  // The states a run goes through, the first and the last included.
  ghost function Trace(s: State, rank: Ranker, run: seq<Step>): (t: seq<State>)
    requires ValidRun(s, rank, run)
    ensures |t| == |run| + 1 && t[0] == s && t[|run|] == After(s, rank, run)
    decreases |run|
  {
    if run == [] then [s] else [s] + Trace(Next(s, rank, run[0]), rank, run[1..])
  }

  lemma {:induction false} RunKeepsSources(past: seq<State>, s: State, rank: Ranker, run: seq<Step>)
    requires Inv(s, rank) && ValidRun(s, rank, run) && Sourced(past + [s], rank, s)
    ensures Sourced(past + Trace(s, rank, run), rank, After(s, rank, run))
    decreases |run|
  {
    hide Inv, Sourced, Enabled, Next;
    if run != [] {
      var after := Next(s, rank, run[0]);
      StepKeepsSources(past + [s], rank, run[0]);
      StepKeepsInv(s, rank, run[0]);
      RunKeepsSources(past + [s], after, rank, run[1..]);
      ConcatAssociates(past, [s], Trace(after, rank, run[1..]));
    }
  }

  lemma {:induction false} TraceSteps(s: State, rank: Ranker, run: seq<Step>, i: nat)
    requires ValidRun(s, rank, run) && i < |run|
    ensures Enabled(Trace(s, rank, run)[i], run[i])
    ensures Trace(s, rank, run)[i + 1] == Next(Trace(s, rank, run)[i], rank, run[i])
    decreases |run|
  {
    hide Enabled, Next;
    if i > 0 {
      TraceSteps(Next(s, rank, run[0]), rank, run[1..], i - 1);
    }
  }

  lemma StepKeepsKey(s: State, rank: Ranker, step: Step, r: nat)
    requires Enabled(s, step)
    ensures s.generation <= Next(s, rank, step).generation
    ensures r in s.readers ==> r in Next(s, rank, step).readers
    ensures r in s.readers ==> Next(s, rank, step).readers[r].request == s.readers[r].request
    ensures r in s.readers ==> Next(s, rank, step).readers[r].gen == s.readers[r].gen
  {
    hide Visible, Ranked, Unchanged, KeyOf, HasKey, Found;
  }

  lemma {:induction false} GenerationGrows(s: State, rank: Ranker, run: seq<Step>, i: nat, j: nat)
    requires ValidRun(s, rank, run) && i <= j <= |run|
    ensures Trace(s, rank, run)[i].generation <= Trace(s, rank, run)[j].generation
    decreases j - i
  {
    hide Trace, Next, Enabled, After, ValidRun;
    if i < j {
      TraceSteps(s, rank, run, i);
      StepKeepsKey(Trace(s, rank, run)[i], rank, run[i], 0);
      GenerationGrows(s, rank, run, i + 1, j);
    }
  }

  // A query keeps the request and the generation it was begun with.
  lemma {:induction false} KeyIsKept(s: State, rank: Ranker, run: seq<Step>, i: nat, j: nat, r: nat)
    requires ValidRun(s, rank, run) && i <= j <= |run| && r in Trace(s, rank, run)[i].readers
    ensures r in Trace(s, rank, run)[j].readers
    ensures var was, now := Trace(s, rank, run)[i].readers[r], Trace(s, rank, run)[j].readers[r];
            now.request == was.request && now.gen == was.gen
    decreases j - i
  {
    hide Trace, Next, Enabled, After, ValidRun;
    if i < j {
      TraceSteps(s, rank, run, i);
      StepKeepsKey(Trace(s, rank, run)[i], rank, run[i], r);
      KeyIsKept(s, rank, run, i + 1, j, r);
    }
  }

  lemma SourcesOfRun(start: State, rank: Ranker, run: seq<Step>, r: nat)
    requires Start(start) && ValidRun(start, rank, run)
    requires r in After(start, rank, run).readers
    ensures SourcedReader(Trace(start, rank, run), rank, After(start, rank, run).readers[r])
  {
    hide Inv, Trace, SourcedReader, SourcedAnswer;
    ReachableInv(start, rank, []);
    assert [] + [start] == [start] && [] + Trace(start, rank, run) == Trace(start, rank, run);
    RunKeepsSources([], start, rank, run);
  }

  // Under any interleaving, whether or not writes are pending and whether it came from the
  // cache or not, an answer was ranked from a listing, a search and a clock reading that all
  // follow every write that had ended when the query took its key; publication may only have
  // left hits out. It was ranked for a request of the same key, and so for the query's own if
  // their filters are interchangeable.
  lemma AnswersSeeEndedWrites(start: State, rank: Ranker, run: seq<Step>, w: nat, k: nat, r: nat)
    requires Start(start) && ValidRun(start, rank, run)
    requires w < k < |run| && run[w].Finish? && run[k].MakeKey? && run[k].reader == r
    requires r in After(start, rank, run).readers && After(start, rank, run).readers[r].Answered?
    ensures var moments := Trace(start, rank, run);
            var answer, request := After(start, rank, run).readers[r].answer, run[k].request;
            && (exists n :: w < n <= |run| && Shows(moments[n], OfListing(request.Asks(), answer.listed)))
            && (exists n :: w < n <= |run| && Shows(moments[n], OfStore(answer.corpus)))
            && (exists n :: w < n <= |run| && Shows(moments[n], OfClock(answer.at)))
            && KeyOf(answer.asked) == KeyOf(request) && Ranking(rank, answer.asked, answer)
            && (Interchangeable(answer.asked.filters, request.filters) ==> Ranking(rank, request, answer))
  {
    hide Trace, After, ValidRun, Sourced, WasRead, Ranked, Thinned, Interchangeable, Shows;
    SourcesOfRun(start, rank, run, r);
    AnswersOwnKey(start, rank, run, r);
    TraceSteps(start, rank, run, w);
    TraceSteps(start, rank, run, k);
    GenerationGrows(start, rank, run, w + 1, k);
    KeyIsKept(start, rank, run, k + 1, |run|, r);
    var reader := After(start, rank, run).readers[r];
    var answer := reader.answer;
    ReadAfter(start, rank, run, w, reader.gen, OfListing(answer.asked.Asks(), answer.listed));
    ReadAfter(start, rank, run, w, reader.gen, OfStore(answer.corpus));
    ReadAfter(start, rank, run, w, reader.gen, OfClock(answer.at));
    if Interchangeable(answer.asked.filters, reader.request.filters) {
      SameRanking(rank, answer.asked, reader.request, answer.listed, answer.corpus, answer.at);
    }
  }

  lemma AnswersOwnKey(start: State, rank: Ranker, run: seq<Step>, r: nat)
    requires Start(start) && ValidRun(start, rank, run)
    requires r in After(start, rank, run).readers && After(start, rank, run).readers[r].Answered?
    ensures var reader := After(start, rank, run).readers[r]; KeyOf(reader.answer.asked) == KeyOf(reader.request)
  {
    hide GenerationInv, FreshInv, AllowedRows;
    ReachableInv(start, rank, run);
    assert WellFormedReader(After(start, rank, run).readers[r]);
  }

  lemma ReadAfter(start: State, rank: Ranker, run: seq<Step>, w: nat, gen: nat, glimpse: Glimpse)
    requires ValidRun(start, rank, run) && w < |run| && Trace(start, rank, run)[w].generation < gen
    requires WasRead(Trace(start, rank, run), gen, glimpse)
    ensures exists n :: w < n <= |run| && Shows(Trace(start, rank, run)[n], glimpse)
  {
    hide Shows;
    var moments := Trace(start, rank, run);
    var n :| 0 <= n < |moments| && moments[n].generation >= gen && Shows(moments[n], glimpse);
    if n <= w {
      GenerationGrows(start, rank, run, n, w);
    }
  }

  // ---- Where the key is not enough ----

  lemma {:induction false} Extended(s: State, rank: Ranker, run: seq<Step>, step: Step)
    requires ValidRun(s, rank, run) && Admissible(After(s, rank, run), step)
    ensures ValidRun(s, rank, run + [step])
    ensures After(s, rank, run + [step]) == Next(After(s, rank, run), rank, step)
    decreases |run|
  {
    hide Enabled, Next;
    if run == [] {
      assert run + [step] == [step] && [step][1..] == [];
    } else {
      assert (run + [step])[1..] == run[1..] + [step];
      Extended(Next(s, rank, run[0]), rank, run[1..], step);
    }
  }

  lemma {:induction false} PickNothing(order: seq<RecordKey>)
    ensures Pick(map[], order) == []
  {
    if order != [] {
      PickNothing(order[1..]);
    }
  }

  // A request whose filters match nothing caches an empty answer, and another request of the
  // same key is given it, although a record that it matches was there all the time.
  lemma EmptyAnswerIsShared(start: State, rank: Ranker, first: Request, second: Request, k: RecordKey)
    returns (run: seq<Step>)
    requires Start(start) && k in Visible(start.store, second.Asks(), start.now)
    requires first.question == second.question
    requires Conflated(first.filters, second.filters, start.store[k].record.metadata)
    ensures run == [MakeKey(0, first), ListRecords(0), Search(0), Rank(0), CacheHits(0), MakeKey(1, second), LookUp(1)]
    ensures ValidRun(start, rank, run)
    ensures var s := After(start, rank, run);
            && 1 in s.readers && s.readers[1].request == second
            && s.readers[1].Answered? && s.readers[1].answer.hits == []
            && s.store == start.store && s.now == start.now
            && Matches(s.store[k].record.metadata, second.filters)
  {
    run := EmptyAnswerIsCached(start, rank, first);
    hide Matches, Rendering, HasKey, Visible, Ranked;
    var s := After(start, rank, run);
    assert KeyOf(first) == KeyOf(second);
    Extended(start, rank, run, MakeKey(1, second));
    run := run + [MakeKey(1, second)];
    Extended(start, rank, run, LookUp(1));
    run := run + [LookUp(1)];
  }

  lemma EmptyAnswerIsCached(start: State, rank: Ranker, request: Request) returns (run: seq<Step>)
    requires Start(start) && HasKey(request.filters)
    requires forall metadata: Metadata :: !Matches(metadata, request.filters)
    ensures run == [MakeKey(0, request), ListRecords(0), Search(0), Rank(0), CacheHits(0)]
    ensures ValidRun(start, rank, run)
    ensures var s := After(start, rank, run);
            && s == start.(readers := s.readers, entries := s.entries)
            && s.readers.Keys == {0} && s.readers[0].Answered? && s.readers[0].gen == start.generation
            && s.entries.Keys == {(start.generation, KeyOf(request))}
            && s.entries[(start.generation, KeyOf(request))].hits == []
  {
    hide Matches, Rendering, HasKey, Visible, Ranked;
    run := [];
    Extended(start, rank, run, MakeKey(0, request));
    run := run + [MakeKey(0, request)];
    Extended(start, rank, run, ListRecords(0));
    run := run + [ListRecords(0)];
    Extended(start, rank, run, Search(0));
    run := run + [Search(0)];
    Extended(start, rank, run, Rank(0));
    NothingRanked(rank, request, After(start, rank, run).readers[0].listed, start.store, start.now);
    run := run + [Rank(0)];
    Extended(start, rank, run, CacheHits(0));
    run := run + [CacheHits(0)];
  }

  lemma NothingRanked(rank: Ranker, request: Request, listed: Rows, corpus: Rows, at: Time)
    requires forall metadata: Metadata :: !Matches(metadata, request.filters)
    ensures Ranked(rank, request, listed, corpus, at) == []
  {
    hide Matches;
    assert Matching(listed, request.filters) == map[];
    PickNothing(rank(request.Asks(), map[], corpus, at));
  }

  // So a query for a date, and then the same query for its text.
  lemma DateAnswersText(start: State, rank: Ranker, question: Question, day: string, k: RecordKey)
    returns (run: seq<Step>)
    requires Start(start) && k in Visible(start.store, Request(question, None).Asks(), start.now)
    requires start.store[k].record.metadata == map["day" := JString(day)]
    ensures ValidRun(start, rank, run)
    ensures var s, text := After(start, rank, run), One(Text("day"), PyString(day));
            && 1 in s.readers && s.readers[1].request == Request(question, text)
            && s.readers[1].Answered? && s.readers[1].answer.hits == []
            && s.store == start.store && Matches(s.store[k].record.metadata, text)
  {
    hide Visible, Conflated, One, Ranked, Matches;
    DateSharesKey(day);
    var date, text := One(Text("day"), PyObject(day, None)), One(Text("day"), PyString(day));
    run := EmptyAnswerIsShared(start, rank, Request(question, date), Request(question, text), k);
  }
}
