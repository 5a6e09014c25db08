// Python values as callers give them, what their JSON text keeps of them, and which stored
// values they compare equal to.

module Values {
  import opened Results
  import opened Models

  // A dictionary key: a text, a number or truth value, None, or one that JSON has no text for.
  datatype Key = Text(name: string) | Number(name: string) | NoneKey | Unwritable(id: nat)
  {
    // What the key is written as.
    function Written(): string
      requires !Unwritable?
    {
      match this
      case Text(name) => name
      case Number(name) => name
      case NoneKey => "null"
    }
  }

  datatype Value =
    | PyNone
    | PyBool(b: bool)
    | PyNumber(n: real)
    | PyNaN(parsed: bool)        // `parsed`: the one object that JSON's own parser gives for NaN
    | PyString(s: string)
    | PyList(items: seq<Value>)
    | PyTuple(items: seq<Value>)
    | PyDict(fields: map<Key, Value>)
      // Anything JSON cannot write: what str() makes of it, and the stored value it equals, if
      // any. A date equals none, a Decimal equals a number.
    | PyObject(text: string, equals: Option<Json>)

  type Dict = map<Key, Value>

  predicate Writable(v: Value) {
    match v
    case PyList(items) => forall i :: 0 <= i < |items| ==> Writable(items[i])
    case PyTuple(items) => forall i :: 0 <= i < |items| ==> Writable(items[i])
    case PyDict(fields) => forall k :: k in fields ==> !k.Unwritable? && Writable(fields[k])
    case PyObject(_, _) => false
    case _ => true
  }

  function Names(fields: Dict): set<string> {
    set k | k in fields && !k.Unwritable? :: k.Written()
  }

  // json.loads(json.dumps(v, default=str)): tuples become lists, every key becomes a text, and
  // so does what JSON cannot write.
  function RoundTrip(v: Value): Json {
    match v
    case PyNone => JNull
    case PyBool(b) => JBool(b)
    case PyNumber(n) => JNumber(n)
    case PyNaN(_) => JNaN
    case PyString(s) => JString(s)
    case PyList(items) => JArray(seq(|items|, i requires 0 <= i < |items| => RoundTrip(items[i])))
    case PyTuple(items) => JArray(seq(|items|, i requires 0 <= i < |items| => RoundTrip(items[i])))
    case PyDict(fields) =>
      JObject(map s | s in Names(fields) ::
        if Text(s) in fields then RoundTrip(fields[Text(s)])
        else if Number(s) in fields then RoundTrip(fields[Number(s)])
        else RoundTrip(fields[NoneKey]))
    case PyObject(text, _) => JString(text)
  }

  function StoredMetadata(given: Dict): Metadata
    requires Writable(PyDict(given))
  {
    RoundTrip(PyDict(given)).fields
  }

  // A truth value counts as 1 or 0.
  function StoredNumber(j: Json): Option<real> {
    match j
    case JBool(b) => Some(if b then 1.0 else 0.0)
    case JNumber(n) => Some(n)
    case _ => None
  }

  function GivenNumber(v: Value): Option<real> {
    match v
    case PyBool(b) => Some(if b then 1.0 else 0.0)
    case PyNumber(n) => Some(n)
    case _ => None
  }

  // How a container compares a stored value with a given one: `stored is given or stored ==
  // given`. A list never equals a tuple, and a NaN only itself.
  predicate Same(stored: Json, given: Value) {
    if given.PyObject? then given.equals.Some? && Norm(stored) == Norm(given.equals.value)
    else match stored
      case JNull => given.PyNone?
      case JBool(_) => StoredNumber(stored) == GivenNumber(given)
      case JNumber(_) => StoredNumber(stored) == GivenNumber(given)
      case JNaN => given == PyNaN(true)
      case JString(s) => given == PyString(s)
      case JArray(items) =>
        given.PyList? && |given.items| == |items| && forall i :: 0 <= i < |items| ==> Same(items[i], given.items[i])
      case JObject(fields) =>
        && given.PyDict?
        && (forall k :: k in given.fields ==> k.Text? && k.name in fields)
        && (forall s :: s in fields ==> Text(s) in given.fields && Same(fields[s], given.fields[Text(s)]))
  }

  // ---- Which stored values equal a given one ----

  // Stored values that equal each other have one normal form: truth values count as numbers.
  function Norm(j: Json): (normal: Json) {
    match j
    case JBool(b) => JNumber(if b then 1.0 else 0.0)
    case JArray(items) => JArray(seq(|items|, i requires 0 <= i < |items| => Norm(items[i])))
    case JObject(fields) => JObject(map s | s in fields :: Norm(fields[s]))
    case _ => j
  }

  // Some stored value equals it: no tuple, no NaN but the parser's own, no key but texts and
  // no object that equals no stored value, at any depth.
  predicate Matchable(v: Value) {
    match v
    case PyNaN(parsed) => parsed
    case PyList(items) => forall i :: 0 <= i < |items| ==> Matchable(items[i])
    case PyTuple(_) => false
    case PyDict(fields) => forall k :: k in fields ==> k.Text? && Matchable(fields[k])
    case PyObject(_, equals) => equals.Some?
    case _ => true
  }

  // The normal form of the stored values that equal it.
  function Normal(v: Value): Json
    requires Matchable(v)
  {
    match v
    case PyNone => JNull
    case PyBool(b) => JNumber(if b then 1.0 else 0.0)
    case PyNumber(n) => JNumber(n)
    case PyNaN(_) => JNaN
    case PyString(s) => JString(s)
    case PyList(items) => JArray(seq(|items|, i requires 0 <= i < |items| => Normal(items[i])))
    case PyDict(fields) => JObject(map s | s in Names(fields) && Text(s) in fields :: Normal(fields[Text(s)]))
    case PyObject(_, equals) => Norm(equals.value)
  }

  lemma {:induction false} NormTwice(j: Json)
    ensures Norm(Norm(j)) == Norm(j)
  {
    match j {
      case JArray(items) =>
        forall i | 0 <= i < |items|
          ensures Norm(Norm(items[i])) == Norm(items[i])
        {
          NormTwice(items[i]);
        }
      case JObject(fields) =>
        forall s | s in fields
          ensures Norm(Norm(fields[s])) == Norm(fields[s])
        {
          NormTwice(fields[s]);
        }
      case _ =>
    }
  }

  lemma {:induction false} NormalIsNormal(v: Value)
    requires Matchable(v)
    ensures Norm(Normal(v)) == Normal(v)
  {
    match v {
      case PyList(items) =>
        forall i | 0 <= i < |items|
          ensures Norm(Normal(items[i])) == Normal(items[i])
        {
          NormalIsNormal(items[i]);
        }
      case PyDict(fields) =>
        forall k | k in fields
          ensures Norm(Normal(fields[k])) == Normal(fields[k])
        {
          NormalIsNormal(fields[k]);
        }
      case PyObject(_, equals) => NormTwice(equals.value);
      case _ =>
    }
  }

  lemma TextNames(fields: Dict, s: string)
    ensures Text(s) in fields ==> s in Names(fields)
    ensures (forall k :: k in fields ==> k.Text?) && s in Names(fields) ==> Text(s) in fields
  {
    if Text(s) in fields {
      assert Text(s).Written() == s;
    }
    if s in Names(fields) {
      var k :| k in fields && !k.Unwritable? && k.Written() == s;
      assert k.Text? ==> k == Text(s);
    }
  }

  // A stored value equals a given one exactly when the normal forms agree.
  lemma {:induction false} SameIsNormal(stored: Json, given: Value)
    ensures Same(stored, given) <==> Matchable(given) && Norm(stored) == Normal(given)
  {
    match given {
      case PyList(items) =>
        if stored.JArray? && |stored.items| == |items| {
          forall i | 0 <= i < |items|
            ensures Same(stored.items[i], items[i]) <==>
                    Matchable(items[i]) && Norm(stored.items[i]) == Normal(items[i])
          {
            SameIsNormal(stored.items[i], items[i]);
          }
          SameItems(stored.items, items);
        } else if stored.JArray? && Matchable(given) {
          assert |Norm(stored).items| != |Normal(given).items|;
        }
      case PyDict(fields) =>
        if stored.JObject? {
          forall s | s in stored.fields && Text(s) in fields
            ensures Same(stored.fields[s], fields[Text(s)]) <==>
                    Matchable(fields[Text(s)]) && Norm(stored.fields[s]) == Normal(fields[Text(s)])
          {
            SameIsNormal(stored.fields[s], fields[Text(s)]);
          }
          SameFields(stored.fields, fields);
        }
      case _ =>
    }
  }

  lemma SameItems(stored: seq<Json>, given: seq<Value>)
    requires |stored| == |given|
    requires forall i :: 0 <= i < |given| ==>
               (Same(stored[i], given[i]) <==> Matchable(given[i]) && Norm(stored[i]) == Normal(given[i]))
    ensures Same(JArray(stored), PyList(given)) <==>
            Matchable(PyList(given)) && Norm(JArray(stored)) == Normal(PyList(given))
  {
    if Matchable(PyList(given)) && Norm(JArray(stored)) == Normal(PyList(given)) {
      var norms, normals := Norm(JArray(stored)).items, Normal(PyList(given)).items;
      forall i | 0 <= i < |given|
        ensures Same(stored[i], given[i])
      {
        assert norms[i] == normals[i];
      }
    }
  }

  // What the comparison of two stored fields, one by one, comes to.
  ghost predicate FieldsAgree(stored: map<string, Json>, given: Dict) {
    forall s :: s in stored && Text(s) in given ==>
      (Same(stored[s], given[Text(s)]) <==> Matchable(given[Text(s)]) && Norm(stored[s]) == Normal(given[Text(s)]))
  }

  lemma SameFields(stored: map<string, Json>, given: Dict)
    requires FieldsAgree(stored, given)
    ensures Same(JObject(stored), PyDict(given)) <==>
            Matchable(PyDict(given)) && Norm(JObject(stored)) == Normal(PyDict(given))
  {
    hide Same, Matchable, Norm, Normal, FieldsAgree;
    if Same(JObject(stored), PyDict(given)) {
      SameFieldsAreNormal(stored, given);
    }
    if Matchable(PyDict(given)) && Norm(JObject(stored)) == Normal(PyDict(given)) {
      NormalFieldsAreSame(stored, given);
    }
  }

  lemma SameFieldsAreNormal(stored: map<string, Json>, given: Dict)
    requires FieldsAgree(stored, given) && Same(JObject(stored), PyDict(given))
    ensures Matchable(PyDict(given)) && Norm(JObject(stored)) == Normal(PyDict(given))
  {
    forall k | k in given
      ensures k.Text? && Matchable(given[k])
    {
      assert k == Text(k.name);
    }
    var norms, normals := Norm(JObject(stored)).fields, Normal(PyDict(given)).fields;
    forall s
      ensures s in norms <==> s in normals
      ensures s in norms ==> norms[s] == normals[s]
    {
      TextNames(given, s);
    }
    assert norms == normals;
  }

  lemma NormalFieldsAreSame(stored: map<string, Json>, given: Dict)
    requires FieldsAgree(stored, given)
    requires Matchable(PyDict(given)) && Norm(JObject(stored)) == Normal(PyDict(given))
    ensures Same(JObject(stored), PyDict(given))
  {
    var norms, normals := Norm(JObject(stored)).fields, Normal(PyDict(given)).fields;
    assert norms == normals;
    forall k | k in given
      ensures k.Text? && k.name in stored
    {
      TextNames(given, k.name);
      assert k.name in normals;
    }
    forall s | s in stored
      ensures Text(s) in given && Same(stored[s], given[Text(s)])
    {
      assert s in norms && s in normals;
    }
  }

  // What is written and matchable has the normal form of what is read back.
  lemma {:induction false} NormalOfWritten(v: Value)
    requires Writable(v) && Matchable(v)
    ensures Norm(RoundTrip(v)) == Normal(v)
  {
    match v {
      case PyList(items) =>
        forall i | 0 <= i < |items|
          ensures Norm(RoundTrip(items[i])) == Normal(items[i])
        {
          NormalOfWritten(items[i]);
        }
      case PyDict(fields) =>
        forall k | k in fields
          ensures Norm(RoundTrip(fields[k])) == Normal(fields[k])
        {
          NormalOfWritten(fields[k]);
        }
        var norms, normals := Norm(RoundTrip(v)).fields, Normal(v).fields;
        forall s
          ensures s in norms <==> s in normals
          ensures s in norms ==> norms[s] == normals[s]
        {
          TextNames(fields, s);
        }
        assert norms == normals;
      case _ =>
    }
  }

  // A value read back equals the one written exactly when any stored value does.
  lemma SameAfterRoundTrip(v: Value)
    requires Writable(v)
    ensures Same(RoundTrip(v), v) <==> Matchable(v)
  {
    hide Same, Norm, Normal, RoundTrip, Matchable, Writable;
    SameIsNormal(RoundTrip(v), v);
    if Matchable(v) {
      NormalOfWritten(v);
    }
  }
}
