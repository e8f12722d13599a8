/** The process environment the core runs in: optional values, failures,
    environment variables (`os.getenv`) and the Streamlit secret store
    (`st.secrets`). Every other module imports this one. */
module Host {

  datatype Option<+T> = None | Some(value: T) {
    /** Python's `x or default` on an optional value that is never falsy when present. */
    function GetOr(default: T): T {
      match this
      case Some(v) => v
      case None => default
    }
  }

  /** An operation that either returns a value or raises one of the core's errors. */
  datatype Result<+T> = Ok(value: T) | Err(error: Error)

  /** The exceptions the core raises or lets through. */
  datatype Error =
    | OpenAiPackageMissing            // RuntimeError("openai package not available")
    | ApiKeyNotConfigured             // RuntimeError("OPENAI_API_KEY not configured")
    | ProviderFailure(message: string) // any exception from a remote embedding or chat call
    | RetryError(last: Error)         // tenacity.RetryError wrapping the final failed attempt
    | SecretsUnavailable              // st.secrets could not be loaded
    | IndexError                      // indexing the first element of an empty list
    | DatabaseError(message: string)  // any error raised by the data store

  /** `os.environ`: the variables that are set (a set variable may hold ""). */
  type Environ = map<string, string>

  /** `st.secrets`: either it cannot be loaded (Streamlit is not importable, or no
      secrets file exists), so every access raises, or it is a loaded mapping. */
  datatype SecretStore = Unavailable | Loaded(entries: map<string, string>)

  /** `os.getenv(name)`: None when the variable is unset. */
  function GetEnv(env: Environ, name: string): (r: Option<string>)
    ensures r.Some? <==> name in env
    ensures r.Some? ==> r.value == env[name]
  {
    if name in env then Some(env[name]) else None
  }

  /** `os.getenv(name, default)`: the default only when the variable is unset. */
  function GetEnvOr(env: Environ, name: string, default: string): (r: string)
    ensures name in env ==> r == env[name]
    ensures name !in env ==> r == default
  {
    GetEnv(env, name).GetOr(default)
  }

  /** `st.secrets.get(key)`: raises when the store cannot be loaded; None for a missing key. */
  function SecretsGet(store: SecretStore, key: string): (r: Result<Option<string>>)
    ensures r.Err? <==> store.Unavailable?
    ensures r.Ok? ==> (r.value.Some? <==> key in store.entries)
    ensures r.Ok? && r.value.Some? ==> r.value.value == store.entries[key]
  {
    match store
    case Unavailable => Err(SecretsUnavailable)
    case Loaded(entries) => Ok(if key in entries then Some(entries[key]) else None)
  }
}
