// Entities shared by the durable store, the prompt builders and the caches.

module Results {
  datatype Option<+T> = None | Some(value: T)

  datatype Result<+T, +E> = Ok(value: T) | Err(error: E)
}

module Models {
  import opened Results

  // Clock readings. Nothing here depends on resolution, so a clock is any real number.
  type Time = real

  datatype Json =
    | JNull
    | JBool(b: bool)
    | JNumber(n: real)
    | JNaN
    | JString(s: string)
    | JArray(items: seq<Json>)
    | JObject(fields: map<string, Json>)

  type Metadata = map<string, Json>

  datatype ContextScope = Thread | Project | Team

  // Stable identity of one agent thread inside a collection.
  datatype ThreadKey = ThreadKey(namespace: string, session: string)

  datatype EventKey = EventKey(thread: ThreadKey, eventId: string)

  datatype RecordKey = RecordKey(namespace: string, id: string)

  datatype ContextEvent = ContextEvent(
    eventId: string,
    sequence: nat,
    role: string,
    content: string,
    metadata: Metadata,
    importance: real,
    isProtected: bool,
    tokenCount: nat,
    recordId: string,
    createdAt: Time,
    indexedAt: Option<Time>)

  datatype ContextRecord = ContextRecord(
    namespace: string,
    id: string,
    text: string,
    metadata: Metadata,
    source: string,
    importance: real,
    tokenCount: nat,
    expiresAt: Option<Time>,
    scope: ContextScope,
    owner: Option<string>,
    team: Option<string>)
  {
    function Key(): RecordKey {
      RecordKey(namespace, id)
    }

    predicate SameVisibility(other: ContextRecord) {
      scope == other.scope && owner == other.owner && team == other.team
    }

    predicate Expired(now: Time) {
      expiresAt.Some? && expiresAt.value <= now
    }
  }

  function Min(a: int, b: int): int {
    if a <= b then a else b
  }

  function Max(a: int, b: int): int {
    if a >= b then a else b
  }
}
