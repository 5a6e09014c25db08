// What a query is given, in terms of the records stored and the order of the ranking.

module QueryGuarantees {
  import opened Results
  import opened Models
  import opened Collections
  import opened Values
  import opened Filters
  import opened Scopes
  import RecordCache
  import opened QueryCache

  // ---- What ranking keeps ----

  function InRows(rows: Rows): RecordKey -> bool {
    (k: RecordKey) => k in rows
  }

  function LiveIn(rows: Rows, now: Time): RecordKey -> bool {
    (k: RecordKey) => k in rows && !rows[k].record.Expired(now)
  }

  lemma {:induction false} PickOneMore(rows: Rows, order: seq<RecordKey>, k: RecordKey)
    ensures Pick(rows, order + [k]) == Pick(rows, order) + if k in rows then [rows[k]] else []
  {
    if order == [] {
      assert order + [k] == [k] && [k][1..] == [];
    } else {
      PickOneMore(rows, order[1..], k);
      assert (order + [k])[1..] == order[1..] + [k];
    }
  }

  // The keys ranked whose rows are kept, and where they stand in the ranking.
  lemma {:induction false} PickedInOrder(rows: Rows, order: seq<RecordKey>)
    returns (keys: seq<RecordKey>, at: seq<nat>)
    ensures Keeps(order, InRows(rows), keys, at)
    ensures |keys| == |Pick(rows, order)|
    ensures forall i :: 0 <= i < |keys| ==> keys[i] in rows && Pick(rows, order)[i] == rows[keys[i]]
  {
    hide Keeps;
    if order == [] {
      keys, at := [], [];
      NothingKept(order, InRows(rows));
    } else {
      var front, last := order[..|order| - 1], order[|order| - 1];
      keys, at := PickedInOrder(rows, front);
      KeepsOneMore(front, InRows(rows), keys, at, last);
      PickOneMore(rows, front, last);
      assert order == front + [last];
      if last in rows {
        keys, at := keys + [last], at + [|front|];
      }
    }
  }

  // And the same of those that have not expired.
  lemma {:induction false} LiveInOrder(rows: Rows, order: seq<RecordKey>, now: Time)
    returns (keys: seq<RecordKey>, at: seq<nat>)
    ensures Keeps(order, LiveIn(rows, now), keys, at)
    ensures var live := LivePlain(Pick(rows, order), now);
            && |keys| == |live|
            && forall i :: 0 <= i < |keys| ==> keys[i] in rows && live[i] == rows[keys[i]].(accessedAt := 0.0)
  {
    hide Keeps;
    if order == [] {
      keys, at := [], [];
      NothingKept(order, LiveIn(rows, now));
    } else {
      var front, last := order[..|order| - 1], order[|order| - 1];
      keys, at := LiveInOrder(rows, front, now);
      KeepsOneMore(front, LiveIn(rows, now), keys, at, last);
      PickOneMore(rows, front, last);
      LivePlainConcat(Pick(rows, front), if last in rows then [rows[last]] else [], now);
      assert order == front + [last];
      if last in rows && !rows[last].record.Expired(now) {
        keys, at := keys + [last], at + [|front|];
      }
    }
  }

  // ---- Cache hits ----

  // A cached answer lists, in the order of the ranking, the ranked records that match the filters
  // it was computed for and can be seen now, as they are now but for their access times. What was
  // ranked is what the request may see, now as then.
  lemma CacheHitFollowsRanking(start: State, rank: Ranker, run: seq<Step>, request: Request)
    returns (keys: seq<RecordKey>, at: seq<nat>)
    requires Start(start) && ValidRun(start, rank, run)
    requires NoPendingWrite(After(start, rank, run)) && Usable(After(start, rank, run), request)
    ensures var s := After(start, rank, run);
            var answer := s.entries[(s.generation, KeyOf(request))];
            var listed, filters := answer.listed, answer.asked.filters;
            var matching := map k | k in listed && Matches(listed[k].record.metadata, filters) :: listed[k];
            var order := rank(answer.asked.Asks(), matching, answer.corpus, answer.at);
            && Ascending(at, |order|) && |at| == |keys| == |answer.hits|
            && (forall i :: 0 <= i < |keys| ==>
                  && keys[i] == order[at[i]] && keys[i] in matching
                  && answer.hits[i].(accessedAt := 0.0) == matching[keys[i]].(accessedAt := 0.0))
            && (forall j :: 0 <= j < |order| ==>
                  (j in at <==>
                    && order[j] in matching
                    && (matching[order[j]].record.expiresAt.Some? ==>
                          s.now < matching[order[j]].record.expiresAt.value)))
    ensures var s := After(start, rank, run);
            var answer := s.entries[(s.generation, KeyOf(request))];
            && answer.asked.question.namespace == request.question.namespace
            && answer.asked.question.settings == request.question.settings
            && SeenNow(s, request, answer.listed)
  {
    hide Inv, UpToDate, Current, LivePlain, Pick, Matches, Interchangeable, Keeps, Visible, StillLive, Bare;
    CacheHitIsFresh(start, rank, run, request);
    var s := After(start, rank, run);
    var answer := s.entries[(s.generation, KeyOf(request))];
    var matching := Matching(answer.listed, answer.asked.filters);
    var order := rank(answer.asked.Asks(), matching, answer.corpus, answer.at);
    keys, at := LiveInOrder(matching, order, s.now);
    KeptKeys(order, matching, s.now, keys, at);
    ListingIsSeen(s, request, answer.listed);
  }

  lemma KeptKeys(order: seq<RecordKey>, rows: Rows, now: Time, keys: seq<RecordKey>, at: seq<nat>)
    requires Keeps(order, LiveIn(rows, now), keys, at)
    ensures Ascending(at, |order|) && |at| == |keys| && forall i :: 0 <= i < |keys| ==> keys[i] == order[at[i]]
    ensures forall j :: 0 <= j < |order| ==>
              (j in at <==>
                && order[j] in rows
                && (rows[order[j]].record.expiresAt.Some? ==> now < rows[order[j]].record.expiresAt.value))
  {
    hide Ascending;
  }

  // The rows are those in the request's namespace that its selection allows and that have not
  // expired, with the contents they have in the store.
  ghost predicate SeenNow(s: State, request: Request, listed: Rows) {
    forall k ::
      && ((k in listed && !listed[k].record.Expired(s.now)) <==>
            && k in s.store && s.store[k].record.namespace == request.question.namespace
            && request.question.selection.Allows(s.store[k].record) && !s.store[k].record.Expired(s.now))
      && (k in listed && !listed[k].record.Expired(s.now) ==>
            listed[k].(accessedAt := 0.0) == s.store[k].(accessedAt := 0.0))
  }

  lemma ListingIsSeen(s: State, request: Request, listed: Rows)
    requires UpToDate(listed, s.store, request.Asks(), s.now)
    ensures SeenNow(s, request, listed)
  {
    hide ScopeSelection.Allows, ContextRecord.Expired;
    var live, visible := Bare(StillLive(listed, s.now)), Bare(Visible(s.store, request.Asks(), s.now));
    forall k
      ensures (k in listed && !listed[k].record.Expired(s.now)) <==> k in live
      ensures k in live ==> live[k] == listed[k].(accessedAt := 0.0)
      ensures k in visible ==> k in s.store && visible[k] == s.store[k].(accessedAt := 0.0)
      ensures k in visible <==>
                && k in s.store && s.store[k].record.namespace == request.question.namespace
                && request.question.selection.Allows(s.store[k].record) && !s.store[k].record.Expired(s.now)
    {
      if k in s.store {
        KeyKeepsVisibility(request, s.store[k].record);
      }
    }
  }

  // ---- Answers ----

  // What is published stands where it was ranked.
  lemma {:induction false} PublishedInOrder(ranked: seq<RecordCache.Row>, published: seq<RecordCache.Row>)
    returns (at: seq<nat>)
    requires Thinned(ranked, published)
    ensures Ascending(at, |ranked|) && |at| == |published|
    ensures forall i :: 0 <= i < |at| ==> SameStamp(ranked[at[i]], published[i])
    decreases |ranked|
  {
    hide SameStamp;
    if published == [] {
      at := [];
    } else {
      var r, p := |ranked| - 1, |published| - 1;
      if SameStamp(ranked[r], published[p]) && Thinned(ranked[..r], published[..p]) {
        at := PublishedInOrder(ranked[..r], published[..p]);
        at := at + [r];
      } else {
        at := PublishedInOrder(ranked[..r], published);
      }
    }
  }

  // Every answer, cached or not and whatever else goes on, lists, in the order of the ranking,
  // records that matched the filters it was computed for and that the request was allowed to see,
  // stored and not expired, at one moment after every write that had ended when the query began.
  lemma AnswerFollowsRanking(start: State, rank: Ranker, run: seq<Step>, w: nat, k: nat, r: nat)
    returns (n: nat, keys: seq<RecordKey>, at: seq<nat>)
    requires Start(start) && ValidRun(start, rank, run)
    requires w < k < |run| && run[w].Finish? && run[k].MakeKey? && run[k].reader == r
    requires r in After(start, rank, run).readers && After(start, rank, run).readers[r].Answered?
    ensures w < n <= |run| && AllowedThen(Trace(start, rank, run)[n], run[k].request,
                                          After(start, rank, run).readers[r].answer.listed)
    ensures var answer, request := After(start, rank, run).readers[r].answer, run[k].request;
            var listed, filters := answer.listed, answer.asked.filters;
            var matching := map key | key in listed && Matches(listed[key].record.metadata, filters) :: listed[key];
            var order := rank(answer.asked.Asks(), matching, answer.corpus, answer.at);
            && answer.asked.question.namespace == request.question.namespace
            && answer.asked.question.settings == request.question.settings
            && Rendering(answer.asked.filters) == Rendering(request.filters)
            && Ascending(at, |order|) && |at| == |keys| == |answer.hits|
            && forall i :: 0 <= i < |keys| ==>
                 && keys[i] == order[at[i]] && keys[i] in matching
                 && Stamped(matching[keys[i]], answer.hits[i])
  {
    hide Trace, After, ValidRun, Thinned, Interchangeable, Rendering, Pick, Matches, Visible, Keeps;
    AnswersSeeEndedWrites(start, rank, run, w, k, r);
    var answer, request := After(start, rank, run).readers[r].answer, run[k].request;
    n :| w < n <= |run| && Shows(Trace(start, rank, run)[n], OfListing(request.Asks(), answer.listed));
    ListedThen(Trace(start, rank, run)[n], request, answer.listed);
    var matching := Matching(answer.listed, answer.asked.filters);
    keys, at := RankedInOrder(matching, rank(answer.asked.Asks(), matching, answer.corpus, answer.at), answer.hits);
  }

  // The record itself, as far as its stamps tell.
  ghost predicate Stamped(stored: RecordCache.Row, given: RecordCache.Row) {
    && given.record.namespace == stored.record.namespace && given.record.id == stored.record.id
    && given.updatedAt == stored.updatedAt && given.contentHash == stored.contentHash
    && given.record.scope == stored.record.scope && given.record.owner == stored.record.owner
    && given.record.team == stored.record.team
  }

  // The rows are exactly those the request may see in that state.
  ghost predicate AllowedThen(s: State, request: Request, listed: Rows) {
    forall key ::
      && (key in listed <==>
            && key in s.store && s.store[key].record.namespace == request.question.namespace
            && request.question.selection.Allows(s.store[key].record)
            && (s.store[key].record.expiresAt.Some? ==> s.now < s.store[key].record.expiresAt.value))
      && (key in listed ==> listed[key] == s.store[key])
  }

  lemma ListedThen(s: State, request: Request, listed: Rows)
    requires Shows(s, OfListing(request.Asks(), listed))
    ensures AllowedThen(s, request, listed)
  {
    hide ScopeSelection.Allows;
    forall key | key in s.store
      ensures request.Asks().selection.Allows(s.store[key].record) <==>
              request.question.selection.Allows(s.store[key].record)
    {
      KeyKeepsVisibility(request, s.store[key].record);
    }
  }

  lemma RankedInOrder(rows: Rows, order: seq<RecordKey>, published: seq<RecordCache.Row>)
    returns (keys: seq<RecordKey>, at: seq<nat>)
    requires Thinned(Pick(rows, order), published)
    ensures Ascending(at, |order|) && |at| == |keys| == |published|
    ensures forall i :: 0 <= i < |keys| ==>
              keys[i] == order[at[i]] && keys[i] in rows && Stamped(rows[keys[i]], published[i])
  {
    hide Pick, Thinned, InRows;
    var all, from := PickedInOrder(rows, order);
    var kept := PublishedInOrder(Pick(rows, order), published);
    keys := seq(|kept|, i requires 0 <= i < |kept| => all[kept[i]]);
    at := seq(|kept|, i requires 0 <= i < |kept| => from[kept[i]]);
  }
}
