// Metadata filters of a query: what they match, and what the query's cache key keeps of them.

module Filters {
  import opened Results
  import opened Models
  import opened Collections
  import opened Values

  // No filters at all match like an empty dictionary of them.
  function Entries(filters: Option<Dict>): Dict {
    if filters.None? then map[] else filters.value
  }

  // ---- Matching ----

  // `actual in expected` for a list, else `actual == expected`.
  predicate Meets(actual: Json, expected: Value) {
    if expected.PyList? then exists i :: 0 <= i < |expected.items| && Same(actual, expected.items[i])
    else !expected.PyNaN? && Same(actual, expected)
  }

  // Stored metadata has no keys but texts; a missing one reads as None.
  function Actual(metadata: Metadata, key: Key): Json {
    if key.Text? && key.name in metadata then metadata[key.name] else JNull
  }

  predicate Matches(metadata: Metadata, filters: Option<Dict>) {
    forall k :: k in Entries(filters) ==> Meets(Actual(metadata, k), Entries(filters)[k])
  }

  // ---- The cache key ----

  // json.dumps with sorted keys gives up on keys that have no text or no common order.
  predicate Renderable(v: Value) {
    match v
    case PyList(items) => forall i :: 0 <= i < |items| ==> Renderable(items[i])
    case PyTuple(items) => forall i :: 0 <= i < |items| ==> Renderable(items[i])
    case PyDict(fields) =>
      && (forall k :: k in fields ==> !k.Unwritable? && Renderable(fields[k]))
      && (forall j, k :: j in fields && k in fields && j != k ==> (j.Text? && k.Text?) || (j.Number? && k.Number?))
    case _ => true
  }

  predicate HasKey(filters: Option<Dict>) {
    filters.Some? ==> Renderable(PyDict(filters.value))
  }

  // The key holds the filters' JSON text, here the value that text denotes.
  function Rendering(filters: Option<Dict>): Json {
    if filters.None? then JNull else RoundTrip(PyDict(filters.value))
  }

  // ---- Which filters match the same metadata ----

  // The normal forms of the values that meet the expectation.
  function Wanted(expected: Value): set<Json> {
    if expected.PyList? then
      set i | 0 <= i < |expected.items| && Matchable(expected.items[i]) :: Normal(expected.items[i])
    else if !expected.PyNaN? && Matchable(expected) then {Normal(expected)}
    else {}
  }

  // Some expectation cannot be met by any metadata.
  predicate Hopeless(fields: Dict) {
    exists k :: k in fields && if k.Text? then Wanted(fields[k]) == {} else JNull !in Wanted(fields[k])
  }

  // Both match nothing, or they expect the same values under the same texts.
  predicate Interchangeable(a: Option<Dict>, b: Option<Dict>) {
    var f, g := Entries(a), Entries(b);
    || (Hopeless(f) && Hopeless(g))
    || (&& !Hopeless(f) && !Hopeless(g)
        && (forall k :: k in f && k.Text? ==> k in g && Wanted(f[k]) == Wanted(g[k]))
        && (forall k :: k in g && k.Text? ==> k in f))
  }

  ghost predicate SameMatches(a: Option<Dict>, b: Option<Dict>) {
    forall metadata: Metadata :: Matches(metadata, a) <==> Matches(metadata, b)
  }

  lemma MeetsWanted(actual: Json, expected: Value)
    ensures Meets(actual, expected) <==> Norm(actual) in Wanted(expected)
  {
    hide Same, Norm, Normal, Matchable;
    if expected.PyList? {
      forall i | 0 <= i < |expected.items|
        ensures Same(actual, expected.items[i]) <==>
                Matchable(expected.items[i]) && Norm(actual) == Normal(expected.items[i])
      {
        SameIsNormal(actual, expected.items[i]);
      }
    } else {
      SameIsNormal(actual, expected);
    }
  }

  lemma WantedAreNormal(expected: Value)
    ensures forall j :: j in Wanted(expected) ==> Norm(j) == j
  {
    hide Norm, Normal, Matchable;
    if expected.PyList? {
      forall i | 0 <= i < |expected.items| && Matchable(expected.items[i])
        ensures Norm(Normal(expected.items[i])) == Normal(expected.items[i])
      {
        NormalIsNormal(expected.items[i]);
      }
    } else if Matchable(expected) {
      NormalIsNormal(expected);
    }
  }

  // Every text constrains its own value, and nothing else is constrained.
  lemma MatchesByText(metadata: Metadata, filters: Option<Dict>)
    ensures var fields := Entries(filters);
            Matches(metadata, filters) <==>
              && !Hopeless(fields)
              && forall k :: k in fields && k.Text? ==> Norm(Actual(metadata, k)) in Wanted(fields[k])
  {
    hide Meets, Wanted, Norm;
    var fields := Entries(filters);
    assert Norm(JNull) == JNull by { NormNull(); }
    forall k | k in fields
      ensures Meets(Actual(metadata, k), fields[k]) <==> Norm(Actual(metadata, k)) in Wanted(fields[k])
    {
      MeetsWanted(Actual(metadata, k), fields[k]);
    }
  }

  lemma NormNull()
    ensures Norm(JNull) == JNull
  {
  }

  // Metadata that matches, with an allowed value of one's choice under one text.
  lemma Witness(filters: Option<Dict>, name: string, j: Json) returns (metadata: Metadata)
    requires !Hopeless(Entries(filters)) && Norm(j) == j
    requires Text(name) in Entries(filters) ==> j in Wanted(Entries(filters)[Text(name)])
    ensures Matches(metadata, filters) && name in metadata && metadata[name] == j
  {
    hide Wanted, Norm;
    var fields := Entries(filters);
    forall k | k in fields && k.Text?
      ensures Wanted(fields[k]) != {} && forall w :: w in Wanted(fields[k]) ==> Norm(w) == w
    {
      WantedAreNormal(fields[k]);
    }
    metadata := map s | s in Names(fields) + {name} ::
      if s != name && Text(s) in fields then Any(Wanted(fields[Text(s)])) else j;
    forall k | k in fields && k.Text?
      ensures Norm(Actual(metadata, k)) in Wanted(fields[k])
    {
      TextNames(fields, k.name);
      assert k == Text(k.name);
    }
    MatchesByText(metadata, filters);
  }

  // Finitely many values leave some number out.
  lemma {:induction false} Outside(values: set<Json>, n: nat) returns (j: Json)
    ensures j !in values && Norm(j) == j
    ensures j.JNumber? && j.n >= n as real
    decreases |values|
  {
    j := JNumber(n as real);
    if j in values {
      j := Outside(values - {j}, n + 1);
    }
  }

  // Where two filters are not interchangeable, some metadata tells them apart.
  lemma ToldApart(a: Option<Dict>, b: Option<Dict>, k: Key)
    requires !Hopeless(Entries(a))
    requires || Hopeless(Entries(b))
             || (&& k.Text? && k in Entries(b)
                 && (k in Entries(a) ==> exists j :: j in Wanted(Entries(a)[k]) && j !in Wanted(Entries(b)[k])))
    ensures !SameMatches(a, b)
  {
    var f, g := Entries(a), Entries(b);
    var name, j := if k.Text? then k.name else "", JNull;
    hide Wanted, Norm;
    if Text(name) in f {
      WantedAreNormal(f[Text(name)]);
      assert Wanted(f[Text(name)]) != {};
      j := Any(Wanted(f[Text(name)]));
      if k.Text? && k in g && exists i :: i in Wanted(f[k]) && i !in Wanted(g[k]) {
        j :| j in Wanted(f[k]) && j !in Wanted(g[k]);
      }
    } else if k.Text? && k in g {
      j := Outside(Wanted(g[k]), 0);
    } else {
      NormNull();
    }
    var metadata := Witness(a, name, j);
    MatchesByText(metadata, b);
    assert Matches(metadata, a) && !Matches(metadata, b);
  }

  // Two filters match the same metadata, whatever it may be, exactly when they are
  // interchangeable, which a caller can check on the two filters alone.
  lemma SameMatchesExactly(a: Option<Dict>, b: Option<Dict>)
    ensures SameMatches(a, b) <==> Interchangeable(a, b)
  {
    var f, g := Entries(a), Entries(b);
    hide Matches, Wanted, Hopeless;
    if Interchangeable(a, b) {
      forall metadata: Metadata
        ensures Matches(metadata, a) <==> Matches(metadata, b)
      {
        MatchesByText(metadata, a);
        MatchesByText(metadata, b);
      }
    } else if Hopeless(f) {
      ToldApart(b, a, NoneKey);
    } else if Hopeless(g) {
      ToldApart(a, b, NoneKey);
    } else if k :| k in f && k.Text? && (k !in g || exists j :: j in Wanted(g[k]) && j !in Wanted(f[k])) {
      ToldApart(b, a, k);
    } else {
      var k :| k in g && k.Text? && (k !in f || Wanted(f[k]) != Wanted(g[k]));
      assert k in f ==> exists j :: j in Wanted(f[k]) && j !in Wanted(g[k]);
      ToldApart(a, b, k);
    }
  }

  // ---- Requests that share a cache key ----

  // Nothing but what JSON writes and reads back as it was.
  predicate Portable(filters: Option<Dict>) {
    filters.Some? ==> Writable(PyDict(filters.value)) && Matchable(PyDict(filters.value))
  }

  lemma SameWrittenSameWanted(v: Value, w: Value)
    requires Writable(v) && Matchable(v) && Writable(w) && Matchable(w)
    requires RoundTrip(v) == RoundTrip(w)
    ensures Wanted(v) == Wanted(w)
  {
    NormalOfWritten(v);
    NormalOfWritten(w);
    if v.PyList? {
      var written, also := RoundTrip(v).items, RoundTrip(w).items;
      forall i | 0 <= i < |v.items|
        ensures Normal(v.items[i]) == Normal(w.items[i])
      {
        assert written[i] == also[i];
        NormalOfWritten(v.items[i]);
        NormalOfWritten(w.items[i]);
      }
    }
  }

  lemma PortableEntry(f: Dict, g: Dict, k: Key)
    requires Portable(Some(f)) && Portable(Some(g)) && RoundTrip(PyDict(f)) == RoundTrip(PyDict(g)) && k in f
    ensures k.Text? && k in g && Wanted(f[k]) == Wanted(g[k])
  {
    hide Wanted, Normal, Norm;
    var written, also := RoundTrip(PyDict(f)).fields, RoundTrip(PyDict(g)).fields;
    assert k == Text(k.name);
    TextNames(f, k.name);
    assert k.name in written && k.name in also;
    TextNames(g, k.name);
    assert written[k.name] == RoundTrip(f[k]) && also[k.name] == RoundTrip(g[k]);
    SameWrittenSameWanted(f[k], g[k]);
  }

  // Filters that share a key and hold nothing but what survives it match the same metadata.
  lemma PlainKeysAgree(a: Option<Dict>, b: Option<Dict>)
    requires Portable(a) && Portable(b) && Rendering(a) == Rendering(b)
    ensures Interchangeable(a, b)
  {
    hide Wanted, Portable;
    if a.Some? {
      var f, g := a.value, b.value;
      forall k | k in f
        ensures k.Text? && k in g && Wanted(f[k]) == Wanted(g[k])
      {
        PortableEntry(f, g, k);
      }
      forall k | k in g
        ensures k.Text? && k in f && Wanted(g[k]) == Wanted(f[k])
      {
        PortableEntry(g, f, k);
      }
    }
  }

  function One(k: Key, v: Value): Option<Dict> {
    Some(map[k := v])
  }

  lemma OneIsWritten(k: Key, v: Value)
    requires !k.Unwritable?
    ensures RoundTrip(PyDict(map[k := v])) == JObject(map[k.Written() := RoundTrip(v)])
  {
    var fields := map[k := v];
    assert fields[k] == v && Names(fields) == {k.Written()};
    assert RoundTrip(PyDict(fields)).fields == map[k.Written() := RoundTrip(v)];
  }

  lemma OneHasKey(k: Key, v: Value)
    requires !k.Unwritable? && Renderable(v)
    ensures Renderable(PyDict(map[k := v]))
  {
    assert map[k := v][k] == v;
  }

  lemma OneMatches(k: Key, v: Value, metadata: Metadata)
    ensures Matches(metadata, One(k, v)) <==> Meets(Actual(metadata, k), v)
  {
    hide Meets, Actual;
    assert map[k := v][k] == v;
  }

  lemma OneEntry(k: Key, v: Value)
    requires !k.Unwritable? && Renderable(v)
    ensures HasKey(One(k, v)) && Rendering(One(k, v)) == JObject(map[k.Written() := RoundTrip(v)])
    ensures forall metadata: Metadata :: Matches(metadata, One(k, v)) <==> Meets(Actual(metadata, k), v)
  {
    hide Meets, Matches, Actual, Renderable, RoundTrip;
    OneHasKey(k, v);
    OneIsWritten(k, v);
    forall metadata: Metadata
      ensures Matches(metadata, One(k, v)) <==> Meets(Actual(metadata, k), v)
    {
      OneMatches(k, v, metadata);
    }
  }

  // Two filters share a key, yet the one matches nothing and the other this metadata.
  ghost predicate Conflated(nothing: Option<Dict>, something: Option<Dict>, metadata: Metadata) {
    && HasKey(nothing) && HasKey(something) && Rendering(nothing) == Rendering(something)
    && (forall m: Metadata :: !Matches(m, nothing)) && Matches(metadata, something)
  }

  lemma ConflatedEntries(k: Key, v: Value, l: Key, w: Value, metadata: Metadata)
    requires !k.Unwritable? && !l.Unwritable? && Renderable(v) && Renderable(w)
    requires k.Written() == l.Written() && RoundTrip(v) == RoundTrip(w)
    requires (forall m: Metadata :: !Meets(Actual(m, k), v)) && Meets(Actual(metadata, l), w)
    ensures Conflated(One(k, v), One(l, w), metadata)
  {
    hide Meets, RoundTrip, Renderable, Matches, Rendering, HasKey, One;
    OneEntry(k, v);
    OneEntry(l, w);
  }

  // A date and its text share a key, but only the text is ever met.
  lemma DateSharesKey(day: string)
    ensures var metadata := map["day" := JString(day)];
            Conflated(One(Text("day"), PyObject(day, None)), One(Text("day"), PyString(day)), metadata)
  {
    hide Conflated, One;
    ConflatedEntries(Text("day"), PyObject(day, None), Text("day"), PyString(day), map["day" := JString(day)]);
  }

  // A tuple and a list share a key, but the list is met by its members and the tuple by nothing.
  lemma TupleSharesKey(items: seq<string>, i: nat)
    requires i < |items|
    ensures var values := seq(|items|, j requires 0 <= j < |items| => PyString(items[j]));
            var metadata := map["tag" := JString(items[i])];
            Conflated(One(Text("tag"), PyTuple(values)), One(Text("tag"), PyList(values)), metadata)
  {
    hide Conflated, One;
    var values := seq(|items|, j requires 0 <= j < |items| => PyString(items[j]));
    assert Same(JString(items[i]), values[i]);
    ConflatedEntries(Text("tag"), PyTuple(values), Text("tag"), PyList(values), map["tag" := JString(items[i])]);
  }

  // A number and its text share a key as names, but only the text can name a stored value.
  lemma NumberSharesKey(name: string, value: string)
    ensures var metadata := map[name := JString(value)];
            Conflated(One(Number(name), PyString(value)), One(Text(name), PyString(value)), metadata)
  {
    hide Conflated, One;
    ConflatedEntries(Number(name), PyString(value), Text(name), PyString(value), map[name := JString(value)]);
  }

  // ---- What filters ask for ----

  // No filters match everything, and several match what each of them does.
  lemma FiltersConjoin(metadata: Metadata, f: Dict, g: Dict)
    requires f.Keys !! g.Keys
    ensures Matches(metadata, None) && Matches(metadata, Some(map[]))
    ensures Matches(metadata, Some(f + g)) <==> Matches(metadata, Some(f)) && Matches(metadata, Some(g))
  {
    hide Meets, Actual;
    var both := f + g;
    assert forall k :: k in f ==> k in both && both[k] == f[k];
    assert forall k :: k in g ==> k in both && both[k] == g[k];
  }

  // A text asks for itself, a number for itself or the truth value that equals it, None for a
  // field that is absent or null, and a list of texts for one of them.
  lemma OneFilter(metadata: Metadata, name: string, text: string, n: real, texts: seq<string>)
    ensures Matches(metadata, One(Text(name), PyString(text))) <==> name in metadata && metadata[name] == JString(text)
    ensures Matches(metadata, One(Text(name), PyNone)) <==> (name in metadata ==> metadata[name] == JNull)
    ensures Matches(metadata, One(Text(name), PyNumber(n))) <==>
              && name in metadata
              && (|| metadata[name] == JNumber(n)
                  || (metadata[name] == JBool(true) && n == 1.0) || (metadata[name] == JBool(false) && n == 0.0))
    ensures var items := seq(|texts|, i requires 0 <= i < |texts| => PyString(texts[i]));
            Matches(metadata, One(Text(name), PyList(items))) <==>
            name in metadata && exists i :: 0 <= i < |texts| && metadata[name] == JString(texts[i])
  {
    hide Matches;
    var items := seq(|texts|, i requires 0 <= i < |texts| => PyString(texts[i]));
    OneMatches(Text(name), PyString(text), metadata);
    OneMatches(Text(name), PyNone, metadata);
    OneMatches(Text(name), PyNumber(n), metadata);
    OneMatches(Text(name), PyList(items), metadata);
    assert forall i :: 0 <= i < |texts| ==>
             (Same(Actual(metadata, Text(name)), items[i]) <==> Actual(metadata, Text(name)) == JString(texts[i]));
  }
}
