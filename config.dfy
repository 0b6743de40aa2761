/** core/config.go: the service configuration, its defaults, and `~`
    expansion. */
module Config {

  import opened Common
  import opened Indexer

  /** `apiConfig`. */
  datatype ApiConfig = ApiConfig(Listen: string, ShowErrors: bool)

  /** The configuration as a value; `None` is a nil section. */
  datatype ConfigValue = ConfigValue(
    Store: Option<ServiceConfig>,
    Index: Option<ServiceConfig>,
    Import: Option<ServiceConfig>,
    Export: Option<ServiceConfig>,
    Api: Option<ApiConfig>,
    CachePath: string)

  const DefaultStore: ServiceConfig := ServiceConfig("fs-store", map[])
  const DefaultIndex: ServiceConfig := ServiceConfig("es-indexer", map[])
  const DefaultImport: ServiceConfig := ServiceConfig("fs-import", map[])
  const DefaultExport: ServiceConfig := ServiceConfig("null-export", map[])
  const DefaultApi: ApiConfig := ApiConfig("127.0.0.1:4000", true)
  /** `filepath.Join("~", ".opfs", "cache")`. */
  const DefaultCachePath: string := "~/.opfs/cache"

  function OrDefault<T>(section: Option<T>, default: T): T {
    if section.Some? then section.value else default
  }

  /** The configuration `ValidateConfig` leaves behind. */
  function Validated(c: ConfigValue): (r: ConfigValue)
    ensures r.Store.Some? && r.Index.Some? && r.Import.Some? && r.Export.Some? && r.Api.Some? && r.CachePath != ""
  {
    ConfigValue(
      Some(OrDefault(c.Store, DefaultStore)),
      Some(OrDefault(c.Index, DefaultIndex)),
      Some(OrDefault(c.Import, DefaultImport)),
      Some(OrDefault(c.Export, DefaultExport)),
      Some(OrDefault(c.Api, DefaultApi)),
      if c.CachePath == "" then DefaultCachePath else c.CachePath)
  }

  /** A nil section gets the default; a set section and a non-empty cache
      path are kept. */
  lemma ValidatedKeepsWhatIsSet(c: ConfigValue)
    ensures c.Store.Some? ==> Validated(c).Store == c.Store
    ensures c.Store.None? ==> Validated(c).Store == Some(DefaultStore)
    ensures c.Index.Some? ==> Validated(c).Index == c.Index
    ensures c.Index.None? ==> Validated(c).Index == Some(DefaultIndex)
    ensures c.Import.Some? ==> Validated(c).Import == c.Import
    ensures c.Import.None? ==> Validated(c).Import == Some(DefaultImport)
    ensures c.Export.Some? ==> Validated(c).Export == c.Export
    ensures c.Export.None? ==> Validated(c).Export == Some(DefaultExport)
    ensures c.Api.Some? ==> Validated(c).Api == c.Api
    ensures c.Api.None? ==> Validated(c).Api == Some(DefaultApi)
    ensures c.CachePath != "" ==> Validated(c).CachePath == c.CachePath
    ensures c.CachePath == "" ==> Validated(c).CachePath == DefaultCachePath
  {
  }

  /** A configuration with nothing left to default is its own validation,
      so validating twice changes nothing. */
  lemma ValidatedIdempotent(c: ConfigValue)
    ensures Validated(Validated(c)) == Validated(c)
    ensures c.Store.Some? && c.Index.Some? && c.Import.Some? && c.Export.Some? && c.Api.Some? && c.CachePath != ""
            ==> Validated(c) == c
  {
  }

  /** `Config`, whose nil sections `ValidateConfig` fills in place. */
  class Config {
    var Store: Option<ServiceConfig>
    var Index: Option<ServiceConfig>
    var Import: Option<ServiceConfig>
    var Export: Option<ServiceConfig>
    var Api: Option<ApiConfig>
    var CachePath: string

    constructor (c: ConfigValue)
      ensures Value() == c
    {
      Store, Index, Import, Export, Api, CachePath := c.Store, c.Index, c.Import, c.Export, c.Api, c.CachePath;
    }

    function Value(): ConfigValue
      reads this
    {
      ConfigValue(Store, Index, Import, Export, Api, CachePath)
    }

    /** `ValidateConfig`. */
    method ValidateConfig()
      modifies this
      ensures Value() == Validated(old(Value()))
    {
      if Store.None? {
        Store := Some(DefaultStore);
      }
      if Index.None? {
        Index := Some(DefaultIndex);
      }
      if Import.None? {
        Import := Some(DefaultImport);
      }
      if Export.None? {
        Export := Some(DefaultExport);
      }
      if Api.None? {
        Api := Some(DefaultApi);
      }
      if CachePath == "" {
        CachePath := DefaultCachePath;
      }
    }
  }

  /** `ExpandHome`, with the value of $HOME as `home`. Indexing `s[0]` panics
      on the empty string. */
  function ExpandHome(s: string, home: string): (r: string)
    requires |s| > 0
    ensures s[0] != '~' ==> r == s
    ensures s[0] == '~' ==> |r| == |home| + |s| - 1 && r[..|home|] == home && r[|home|..] == s[1..]
  {
    if s[0] == '~' then home + s[1..] else s
  }

  /** Expanding an expanded path changes nothing when $HOME does not itself
      start with '~'. */
  lemma ExpandHomeIdempotent(s: string, home: string)
    requires |s| > 0
    requires home != "" && home[0] != '~'
    ensures |ExpandHome(s, home)| > 0
    ensures ExpandHome(ExpandHome(s, home), home) == ExpandHome(s, home)
  {
    if s[0] == '~' {
      assert ExpandHome(s, home)[0] == home[0];
    }
  }

  /** The default cache path is expanded below $HOME. */
  lemma DefaultCachePathUnderHome(home: string)
    ensures ExpandHome(DefaultCachePath, home) == home + "/.opfs/cache"
  {
    assert DefaultCachePath[1..] == "/.opfs/cache";
  }
}
