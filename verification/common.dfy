/** Shared building blocks: optional values, string-carrying failures, the
    browser storage slot every persisted record lives in, the lazily created
    SDK client both AI wrappers keep, and the chat message shape. */
module Common {

  datatype Option<T> = None | Some(value: T)

  /** A computation that either yields a value or fails with an error message,
      the way a thrown `Error` carries its `message`. */
  datatype Result<T> = Ok(value: T) | Err(message: string)

  /** One key of the browser's local storage. On the server there is no
      `window`, so the slot is `Unavailable`: loading gives the default and
      saving does nothing. */
  datatype Slot<T> = Unavailable | Available(stored: Option<T>)

  /** Load-or-default. */
  function Load<T>(slot: Slot<T>, default: T): T
  {
    match slot
    case Available(Some(v)) => v
    case _ => default
  }

  /** Save, silently dropped when no storage exists. */
  function Save<T>(slot: Slot<T>, v: T): Slot<T>
  {
    if slot.Available? then Available(Some(v)) else Unavailable
  }

  /** A browser reads back what it saved; the server always reads the default
      and never gains storage. */
  lemma LoadAfterSave<T>(slot: Slot<T>, v: T, default: T)
    ensures slot.Available? ==> Load(Save(slot, v), default) == v
    ensures slot.Unavailable? ==> Save(slot, v) == Unavailable && Load(Save(slot, v), default) == default
  {
  }

  /** A chat message as the routes receive it. */
  datatype Message = Message(role: string, content: string)

  /** The module-level client singleton of an SDK wrapper: either not yet
      created, or created once with the key that was configured then. */
  datatype ClientCache = NoClient | Created(apiKey: string)

  /** Returns the cached client, or creates it from the configured key (an
      absent or empty key fails with `missing`). */
  function GetClient(cache: ClientCache, envKey: string, missing: string): (r: (Result<string>, ClientCache))
    ensures cache.Created? ==> r == (Ok(cache.apiKey), cache)
    ensures cache.NoClient? ==> (r.0.Err? <==> envKey == "")
    ensures r.0.Err? ==> r.0.message == missing && r.1 == NoClient
    ensures r.0.Ok? ==> r.1 == Created(r.0.value)
  {
    match cache
    case Created(key) => (Ok(key), cache)
    case NoClient =>
      if envKey == "" then (Err(missing), NoClient) else (Ok(envKey), Created(envKey))
  }

  /** What an SDK wrapper call settles to, with the client cache it leaves. */
  datatype Outcome = Outcome(result: Result<string>, cache: ClientCache)

  /** Creation happens at most once: after a successful call, a later call with
      any configured key returns the same client and keeps the cache. */
  lemma ClientCreatedAtMostOnce(cache: ClientCache, key1: string, key2: string, missing: string)
    requires GetClient(cache, key1, missing).0.Ok?
    ensures var (first, cache1) := GetClient(cache, key1, missing);
            GetClient(cache1, key2, missing) == (first, cache1)
  {
  }
}
