/** `VibeCreatorKit.configure` and the shared `APIConfiguration`
    (`VibeCreatorKit.swift`). */
module KitConfiguration {
  import opened Wrappers

  const Version := "1.0.0"
  const BuildNumber := "1"

  class ApiConfiguration {
    var baseURL: string
    var apiKey: string
    var isConfigured: bool

    /** The shared instance starts empty and unconfigured. */
    constructor()
      ensures baseURL == "" && apiKey == "" && !isConfigured
    {
      baseURL := "";
      apiKey := "";
      isConfigured := false;
    }

    /** `configure(baseURL:apiKey:)`: the base URL always changes, the key
        only when one is passed; whether the kit counts as configured is left
        to `validate`. */
    method Configure(url: string, key: Option<string>)
      modifies this
      ensures baseURL == url
      ensures apiKey == (if key.Some? then key.value else old(apiKey))
      ensures isConfigured == old(isConfigured)
    {
      baseURL := url;
      if key.Some? {
        apiKey := key.value;
      }
    }

    /** `validate`: refuses an empty base URL without touching the flag;
        otherwise marks the kit configured. */
    method Validate() returns (ok: bool)
      modifies this
      ensures ok <==> baseURL != ""
      ensures ok ==> isConfigured
      ensures !ok ==> isConfigured == old(isConfigured)
      ensures baseURL == old(baseURL) && apiKey == old(apiKey)
    {
      if baseURL == "" {
        return false;
      }
      isConfigured := true;
      return true;
    }
  }

  /** The outcome of `configure` then `validate` from the starting state, as
      a value: whether validation passes and the key left in place. */
  function ConfigureThenValidate(url: string, key: Option<string>): (r: (bool, string))
    ensures r.0 <==> url != ""
    ensures key.None? ==> r.1 == ""
    ensures key.Some? ==> r.1 == key.value
  {
    (url != "", if key.Some? then key.value else "")
  }

  /** Configuring and validating a fresh configuration agrees with
      `ConfigureThenValidate`, and validating twice changes nothing more. */
  method ConfigureFresh(url: string, key: Option<string>) returns (ok: bool, again: bool, c: ApiConfiguration)
    ensures (ok, c.apiKey) == ConfigureThenValidate(url, key)
    ensures c.isConfigured == ok && again == ok
  {
    c := new ApiConfiguration();
    c.Configure(url, key);
    ok := c.Validate();
    again := c.Validate();
  }
}
