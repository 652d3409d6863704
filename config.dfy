/** The persisted configuration: the registered worker repositories and their source provider. */
module Config {
  import opened Wrappers

  /** Where a worker repository is hosted. */
  datatype Provider = Github | Gitlab

  /** `Provider::default()`: GitHub. */
  const DefaultProvider: Provider := Github

  /** The name under which the command line accepts each provider. */
  function ProviderName(p: Provider): string {
    match p
    case Github => "github"
    case Gitlab => "gitlab"
  }

  /**
   * `Provider::from(&str)`: "github" and "gitlab" name the two providers; the source
   * panics on any other string, so only those two may be passed.
   */
  function ProviderFrom(value: string): (p: Provider)
    requires value == "github" || value == "gitlab"
    ensures p == Github <==> value == "github"
    ensures p == Gitlab <==> value == "gitlab"
  {
    match value
    case "github" => Github
    case _ => Gitlab
  }

  /**
   * Parsing inverts naming: every provider is accepted under its own name and read back
   * as itself, distinct providers have distinct names, and the default is the one named
   * "github".
   */
  lemma ProviderNameRoundTrip(p: Provider, q: Provider)
    ensures ProviderName(p) == "github" || ProviderName(p) == "gitlab"
    ensures ProviderFrom(ProviderName(p)) == p
    ensures ProviderName(p) == ProviderName(q) ==> p == q
    ensures ProviderName(DefaultProvider) == "github"
  {
  }

  /** One registered repository (the fields this configuration format defines). */
  datatype RepoConfig = RepoConfig(
    name: string,
    provider: Provider,
    cargoTomlManifest: Option<string>,
    dockerContents: seq<string>,
    dockerFilenames: seq<string>)

  /** `RepoConfig::new`: the given name and provider, no manifest, no Dockerfiles yet. */
  function RepoConfigNew(provider: Provider, name: string): (r: RepoConfig)
    ensures r.name == name && r.provider == provider
    ensures r.cargoTomlManifest.None? && r.dockerContents == [] && r.dockerFilenames == []
  {
    RepoConfig(name, provider, None, [], [])
  }

  /** The whole configuration; `repos` is replaced in place by the commands that edit it. */
  class McaiWorkersConfig {
    /** The format version, a `u8`. */
    var version: nat
    var repos: seq<RepoConfig>

    /** `McaiWorkersConfig::default()`: version 0 and no repositories. */
    constructor()
      ensures version == 0 && repos == []
    {
      version := 0;
      repos := [];
    }
  }
}
