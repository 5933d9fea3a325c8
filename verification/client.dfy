/** `NewClient`: the immutable configuration every request is made with. */
module Client {
  import opened Wrappers
  import opened Failures

  /** Durations are counted in nanoseconds, as Go's `time.Duration` is. */
  const Second: int := 1_000_000_000
  const DefaultTimeout: int := 30 * Second
  const DefaultBaseUrl := "https://api-dev.dragdropdo.com"

  datatype Config = Config(
    apiKey: string,
    baseUrl: string,
    timeout: int,
    headers: map<string, string>)

  datatype Client = Client(
    apiKey: string,
    baseUrl: string,
    timeout: int,
    headers: map<string, string>)

  predicate EndsWith(s: string, suffix: string) {
    |suffix| <= |s| && s[|s| - |suffix|..] == suffix
  }

  /** `strings.TrimSuffix`: removes one copy of `suffix` from the end, if present. */
  function TrimSuffix(s: string, suffix: string): (r: string)
    ensures EndsWith(s, suffix) ==> r + suffix == s
    ensures !EndsWith(s, suffix) ==> r == s
  {
    if EndsWith(s, suffix) then s[..|s| - |suffix|] else s
  }

  function DefaultHeaders(apiKey: string): map<string, string> {
    map["Content-Type" := "application/json", "Authorization" := "Bearer " + apiKey]
  }

  /** The caller's headers are laid over the defaults; the caller wins. */
  function MergeHeaders(defaults: map<string, string>, extra: map<string, string>): (m: map<string, string>)
    ensures m.Keys == defaults.Keys + extra.Keys
    ensures forall k :: k in extra ==> m[k] == extra[k]
    ensures forall k :: k in defaults && k !in extra ==> m[k] == defaults[k]
  {
    defaults + extra
  }

  function NewClient(config: Config): (r: Result<Client, Failure>)
    ensures r.Err? <==> config.apiKey == ""
    ensures r.Err? ==> r.error == ApiKeyRequired
    ensures r.Ok? ==> r.value.apiKey == config.apiKey
    ensures r.Ok? ==> r.value.timeout == (if config.timeout == 0 then DefaultTimeout else config.timeout)
    ensures r.Ok? && config.baseUrl == "" ==> r.value.baseUrl == DefaultBaseUrl
    ensures r.Ok? && config.baseUrl != "" ==>
              if EndsWith(config.baseUrl, "/") then r.value.baseUrl + "/" == config.baseUrl
              else r.value.baseUrl == config.baseUrl
    ensures r.Ok? ==> r.value.headers.Keys == {"Content-Type", "Authorization"} + config.headers.Keys
    ensures r.Ok? ==> forall k :: k in config.headers ==> r.value.headers[k] == config.headers[k]
    ensures r.Ok? && "Authorization" !in config.headers ==>
              r.value.headers["Authorization"] == "Bearer " + config.apiKey
    ensures r.Ok? && "Content-Type" !in config.headers ==>
              r.value.headers["Content-Type"] == "application/json"
  {
    if config.apiKey == "" then Err(ApiKeyRequired)
    else
      var base := if config.baseUrl == "" then DefaultBaseUrl else config.baseUrl;
      var timeout := if config.timeout == 0 then DefaultTimeout else config.timeout;
      Ok(Client(config.apiKey, TrimSuffix(base, "/"), timeout,
                MergeHeaders(DefaultHeaders(config.apiKey), config.headers)))
  }

  /** Only one trailing slash is removed: a base URL that ends in "//" keeps one. */
  lemma TrimsOneSlashOnly(apiKey: string, host: string)
    requires apiKey != ""
    ensures var r := NewClient(Config(apiKey, host + "//", 0, map[]));
            r.Ok? && r.value.baseUrl == host + "/"
  {
    var r := NewClient(Config(apiKey, host + "//", 0, map[]));
    assert EndsWith(host + "//", "/");
    assert r.value.baseUrl + "/" == host + "//";
  }
}
