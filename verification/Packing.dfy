// Packing retrieved books into a token budget, for the reading desk and for transport.

module Packing {
  import opened Results
  import opened Models
  import opened TextBudget
  import opened Markup

  // A search hit: its record, its score as rendered with three decimals, and the first
  // digits of the record identifier's digest.
  datatype Hit = Hit(record: ContextRecord, relevance: string, idDigest: string)

  datatype WorkingSet = WorkingSet(
    focus: string,
    hits: seq<Hit>,
    context: string,
    tokenCount: nat,
    tokenBudget: int,
    refreshedAt: string)

  const MAX_RESULT_BOOKS := 100

  // "\n\n".join(sections)
  function Join(sections: seq<string>): string {
    if sections == [] then ""
    else if |sections| == 1 then sections[0]
    else sections[0] + "\n\n" + Join(sections[1..])
  }

  lemma {:induction false} JoinSnocLength(sections: seq<string>, last: string)
    ensures |Join(sections + [last])| == |Join(sections)| + |last| + if sections == [] then 0 else 2
  {
    if |sections| > 1 {
      JoinSnocLength(sections[1..], last);
      assert (sections + [last])[1..] == sections[1..] + [last];
    } else if |sections| == 1 {
      assert (sections + [last])[1..] == [last];
    }
  }

  // ---- Bisection ----

  ghost predicate IsLargest(p: nat -> bool, first: nat, last: nat, found: Option<nat>) {
    match found
    case Some(best) => first <= best <= last && p(best) && forall n: nat :: best < n <= last ==> !p(n)
    case None => forall n: nat :: first <= n <= last ==> !p(n)
  }

  ghost predicate DownwardClosed(p: nat -> bool) {
    forall m: nat, n: nat :: m <= n && p(n) ==> p(m)
  }

  // Both packers bisect for the longest cut that fits.
  method Bisect(p: nat -> bool, first: nat, last: nat) returns (fitted: Option<nat>)
    requires DownwardClosed(p)
    ensures IsLargest(p, first, last, fitted)
  {
    var low: int, high: int := first, last;
    fitted := None;
    while low <= high
      invariant first <= low && high <= last && (first <= last ==> low <= high + 1)
      invariant fitted == if low == first then None else Some(low - 1)
      invariant low > first ==> low - 1 <= last && p(low - 1)
      invariant forall n: nat :: high < n <= last ==> !p(n)
      decreases high - low
    {
      var midpoint := (low + high) / 2;
      if p(midpoint) {
        fitted := Some(midpoint);
        low := midpoint + 1;
      } else {
        assert forall n: nat :: midpoint <= n ==> !p(n);
        high := midpoint - 1;
      }
    }
  }

  // ---- What is rendered, in either view ----

  datatype Style = Desk | Transport

  function Book(style: Style, hit: Hit, text: string): string {
    match style
    case Desk => FormatLibraryBook(hit.record.id, hit.record.source, hit.relevance, text)
    case Transport => FormatTransportBook(BoundedString(hit.record.id, hit.idDigest), hit.relevance, text)
  }

  function Wrap(style: Style, books: string): string {
    match style
    case Desk => books
    case Transport => FormatTransportContext(books)
  }

  function Marker(style: Style): string {
    match style
    case Desk => BOOK_TRUNCATION_MARKER
    case Transport => TRANSPORT_BOOK_TRUNCATION_MARKER
  }

  // The desk never shows a book reduced to its marker; transport may.
  function FirstCut(style: Style): nat {
    match style
    case Desk => 1
    case Transport => 0
  }

  function Whole(style: Style, hit: Hit): string {
    Book(style, hit, hit.record.text)
  }

  function Cut(style: Style, hit: Hit, n: nat): string {
    Book(style, hit, Prefix(hit.record.text, n) + Marker(style))
  }

  function Wholes(style: Style, hits: seq<Hit>): (sections: seq<string>)
    ensures |sections| == |hits|
  {
    seq(|hits|, i requires 0 <= i < |hits| => Whole(style, hits[i]))
  }

  predicate Fits(style: Style, sections: seq<string>, tokenBudget: int) {
    EstimateTokens(Wrap(style, Join(sections))) <= tokenBudget
  }

  function CutFits(style: Style, sections: seq<string>, hit: Hit, tokenBudget: int): nat -> bool {
    (n: nat) => Fits(style, sections + [Cut(style, hit, n)], tokenBudget)
  }

  // ---- What a packing is ----

  // The first `whole` hits in full, then perhaps the first `cut` characters of the next.
  datatype Packed = Packed(whole: nat, cut: Option<nat>)
  {
    function Shown(): nat {
      whole + if cut.Some? then 1 else 0
    }
  }

  ghost predicate IsPacking(style: Style, ordered: seq<Hit>, tokenBudget: int, limit: nat, packed: Packed) {
    && packed.whole <= |ordered| && packed.whole <= limit
    && (forall m :: 1 <= m <= packed.whole ==> Fits(style, Wholes(style, ordered[..m]), tokenBudget))
    && if packed.whole == |ordered| || packed.whole == limit then packed.cut.None?
       else
         && !Fits(style, Wholes(style, ordered[..packed.whole + 1]), tokenBudget)
         && IsLargest(
           CutFits(style, Wholes(style, ordered[..packed.whole]), ordered[packed.whole], tokenBudget),
           FirstCut(style), |ordered[packed.whole].record.text|, packed.cut)
  }

  function Rendered(style: Style, ordered: seq<Hit>, packed: Packed): seq<string>
    requires packed.Shown() <= |ordered|
  {
    Wholes(style, ordered[..packed.whole])
    + if packed.cut.Some? then [Cut(style, ordered[packed.whole], packed.cut.value)] else []
  }

  lemma BookLength(style: Style, hit: Hit, text: string)
    ensures |Book(style, hit, text)| == |Book(style, hit, "")| + |EscapeText(text)|
  {
    hide EscapeText, EscapeAttribute, BoundedString;
    assert EscapeText("") == "" by { EscapeTextConcat("", ""); }
  }

  lemma WrapLength(style: Style, books: string)
    ensures |Wrap(style, books)| == |Wrap(style, "")| + |books|
  {
    hide EscapeText;
  }

  // A longer cut never renders shorter: escaping is one character at a time.
  lemma CutLength(style: Style, hit: Hit, m: nat, n: nat)
    requires m <= n
    ensures |Cut(style, hit, m)| <= |Cut(style, hit, n)|
  {
    hide EscapeText, Book;
    var text := hit.record.text;
    EscapeTextMonotone(text, Min(m, |text|), Min(n, |text|));
    EscapeTextConcat(Prefix(text, m), Marker(style));
    EscapeTextConcat(Prefix(text, n), Marker(style));
    BookLength(style, hit, Prefix(text, m) + Marker(style));
    BookLength(style, hit, Prefix(text, n) + Marker(style));
    assert Prefix(text, m) == text[..Min(m, |text|)] && Prefix(text, n) == text[..Min(n, |text|)];
  }

  // Rendering more never turns a misfit into a fit.
  lemma FitsMonotone(style: Style, a: seq<string>, b: seq<string>, tokenBudget: int)
    requires |Join(a)| <= |Join(b)| && Fits(style, b, tokenBudget)
    ensures Fits(style, a, tokenBudget)
  {
    hide Join, Wrap;
    WrapLength(style, Join(a));
    WrapLength(style, Join(b));
  }

  lemma CutFitsIsDownwardClosed(style: Style, sections: seq<string>, hit: Hit, tokenBudget: int)
    ensures DownwardClosed(CutFits(style, sections, hit, tokenBudget))
  {
    hide Fits, Cut, Join;
    forall m: nat, n: nat | m <= n && CutFits(style, sections, hit, tokenBudget)(n)
      ensures CutFits(style, sections, hit, tokenBudget)(m)
    {
      CutLength(style, hit, m, n);
      JoinSnocLength(sections, Cut(style, hit, m));
      JoinSnocLength(sections, Cut(style, hit, n));
      FitsMonotone(style, sections + [Cut(style, hit, m)], sections + [Cut(style, hit, n)], tokenBudget);
    }
  }

  lemma WholesSnoc(style: Style, ordered: seq<Hit>, i: nat)
    requires i < |ordered|
    ensures Wholes(style, ordered[..i + 1]) == Wholes(style, ordered[..i]) + [Whole(style, ordered[i])]
  {
    hide Whole;
  }

  lemma {:induction false} PrefixFits(style: Style, ordered: seq<Hit>, m: nat, n: nat, tokenBudget: int)
    requires m <= n <= |ordered| && Fits(style, Wholes(style, ordered[..n]), tokenBudget)
    ensures Fits(style, Wholes(style, ordered[..m]), tokenBudget)
    decreases n
  {
    hide Fits, Wholes, Join;
    if m < n {
      WholesSnoc(style, ordered, n - 1);
      JoinSnocLength(Wholes(style, ordered[..n - 1]), Whole(style, ordered[n - 1]));
      FitsMonotone(style, Wholes(style, ordered[..n - 1]), Wholes(style, ordered[..n]), tokenBudget);
      PrefixFits(style, ordered, m, n - 1, tokenBudget);
    }
  }

  // The hits shown in full are as many as fit: m of them fit exactly when m of them are shown.
  lemma WholeHitsAreMaximal(style: Style, ordered: seq<Hit>, tokenBudget: int, limit: nat, packed: Packed, m: nat)
    requires IsPacking(style, ordered, tokenBudget, limit, packed)
    requires 1 <= m <= |ordered| && m <= limit
    ensures Fits(style, Wholes(style, ordered[..m]), tokenBudget) <==> m <= packed.whole
  {
    hide Fits, Wholes, IsLargest;
    if m > packed.whole && Fits(style, Wholes(style, ordered[..m]), tokenBudget) {
      PrefixFits(style, ordered, packed.whole + 1, m, tokenBudget);
    }
  }

  // Hits, budget and limit leave only one packing.
  lemma PackingIsUnique(style: Style, ordered: seq<Hit>, tokenBudget: int, limit: nat, a: Packed, b: Packed)
    requires IsPacking(style, ordered, tokenBudget, limit, a) && IsPacking(style, ordered, tokenBudget, limit, b)
    ensures a == b
  {
    hide Fits, Wholes;
    assert a.whole <= b.whole;
    assert b.whole <= a.whole;
  }

  lemma RenderedFits(style: Style, ordered: seq<Hit>, tokenBudget: int, limit: nat, packed: Packed)
    requires IsPacking(style, ordered, tokenBudget, limit, packed) && Fits(style, [], tokenBudget)
    ensures packed.Shown() <= |ordered| && packed.Shown() <= limit
    ensures Fits(style, Rendered(style, ordered, packed), tokenBudget)
  {
    hide Fits, Wholes;
    var wholes := Wholes(style, ordered[..packed.whole]);
    if packed.cut.None? {
      assert Rendered(style, ordered, packed) == wholes;
    } else {
      assert CutFits(style, wholes, ordered[packed.whole], tokenBudget)(packed.cut.value);
    }
  }

  lemma EmptyJoin()
    ensures Join([]) == ""
  {
  }

  lemma EmptyDeskFits(tokenBudget: nat)
    ensures EstimateTokens("") == 0 && Fits(Desk, [], tokenBudget)
  {
  }

  // ---- The reading desk ----

  method PackHits(ordered: seq<Hit>, tokenBudget: int, topK: int)
    returns (selected: seq<Hit>, context: string, ghost packed: Packed)
    requires 1 <= topK
    ensures IsPacking(Desk, ordered, tokenBudget, topK, packed)
    ensures packed.Shown() <= |ordered| && selected == ordered[..packed.Shown()]
    ensures context == Join(Rendered(Desk, ordered, packed))
    ensures 0 <= tokenBudget ==> EstimateTokens(context) <= tokenBudget
  {
    hide EstimateTokens, Book, Join, Wholes, IsLargest, Prefix;
    selected := [];
    var sections: seq<string> := [];
    var i := 0;
    packed := Packed(0, None);
    while i < |ordered|
      invariant 0 <= i <= |ordered| && i < topK
      invariant packed == Packed(i, None)
      invariant selected == ordered[..i] && sections == Wholes(Desk, ordered[..i])
      invariant forall m :: 1 <= m <= i ==> Fits(Desk, Wholes(Desk, ordered[..m]), tokenBudget)
    {
      var hit := ordered[i];
      var section := Whole(Desk, hit);
      WholesSnoc(Desk, ordered, i);
      if EstimateTokens(Join(sections + [section])) <= tokenBudget {
        sections := sections + [section];
        selected := selected + [hit];
        i := i + 1;
        packed := Packed(i, None);
        if |selected| >= topK {
          break;
        }
        continue;
      }
      CutFitsIsDownwardClosed(Desk, sections, hit, tokenBudget);
      var fitted := Bisect(CutFits(Desk, sections, hit, tokenBudget), 1, |hit.record.text|);
      packed := Packed(i, fitted);
      if fitted.Some? {
        sections := sections + [Cut(Desk, hit, fitted.value)];
        selected := selected + [hit];
      }
      break;
    }
    assert sections == Rendered(Desk, ordered, packed);
    context := Join(sections);
    if 0 <= tokenBudget {
      EmptyDeskFits(tokenBudget);
      RenderedFits(Desk, ordered, tokenBudget, topK, packed);
    }
  }

  // ---- The transport view ----

  // Past its first hundred hits, a desk is cut off; a desk of no hits shows none of its text.
  method PackTransportContext(working: WorkingSet) returns (context: string, truncated: bool, ghost packed: Packed)
    ensures var hits := working.hits[..Min(|working.hits|, MAX_RESULT_BOOKS)];
            if !Fits(Transport, [], Max(0, working.tokenBudget)) then
              context == "" && packed == Packed(0, None)
            else
              && IsPacking(Transport, hits, Max(0, working.tokenBudget), |hits|, packed)
              && packed.Shown() <= |hits|
              && context == FormatTransportContext(Join(Rendered(Transport, hits, packed)))
    ensures EstimateTokens(context) <= Max(0, working.tokenBudget)
    ensures working.hits != [] && working.context != "" ==> (truncated <==> packed.whole < |working.hits|)
    ensures (truncated <==> packed.whole < |working.hits|) <==>
              if working.hits == [] then working.context == ""
              else working.context != "" || Fits(Transport, [], Max(0, working.tokenBudget))
    ensures truncated ==
              if working.hits == [] || !Fits(Transport, [], Max(0, working.tokenBudget)) then working.context != ""
              else packed.whole < |working.hits|
  {
    hide EstimateTokens, Book, Join, Wholes, IsLargest, Prefix, FormatTransportContext;
    var budget := Max(0, working.tokenBudget);
    var empty := FormatTransportContext("");
    packed := Packed(0, None);
    EmptyJoin();
    if EstimateTokens(empty) > budget {
      assert EstimateTokens("") == 0 by { EmptyDeskFits(0); }
      return "", working.context != "", packed;
    }
    var hits := working.hits[..Min(|working.hits|, MAX_RESULT_BOOKS)];
    var sections: seq<string> := [];
    truncated := working.context != "" && working.hits == [];
    var i := 0;
    while i < |hits|
      invariant 0 <= i <= |hits|
      invariant packed == Packed(i, None) && sections == Wholes(Transport, hits[..i])
      invariant truncated == (working.context != "" && working.hits == [])
      invariant forall m :: 1 <= m <= i ==> Fits(Transport, Wholes(Transport, hits[..m]), budget)
    {
      var hit := hits[i];
      var section := Whole(Transport, hit);
      WholesSnoc(Transport, hits, i);
      if EstimateTokens(FormatTransportContext(Join(sections + [section]))) <= budget {
        sections := sections + [section];
        i := i + 1;
        packed := Packed(i, None);
        continue;
      }
      CutFitsIsDownwardClosed(Transport, sections, hit, budget);
      var fitted := Bisect(CutFits(Transport, sections, hit, budget), 0, |hit.record.text|);
      packed := Packed(i, fitted);
      truncated := true;
      if fitted.Some? {
        sections := sections + [Cut(Transport, hit, fitted.value)];
      }
      break;
    }
    if |sections| < Min(|working.hits|, MAX_RESULT_BOOKS) {
      truncated := true;
    }
    if |working.hits| > MAX_RESULT_BOOKS {
      truncated := true;
    }
    assert sections == Rendered(Transport, hits, packed);
    RenderedFits(Transport, hits, budget, |hits|, packed);
    context := FormatTransportContext(Join(sections));
  }
}
