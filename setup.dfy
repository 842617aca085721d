/** The monitor's settings and the check made before connecting. */
module Setup {
  import opened Wrappers
  import opened Naming

  /** The token written into a freshly created settings file. */
  const PlaceholderToken := "YOUR_PLEX_TOKEN_HERE"

  /** The settings file; an absent key is None. */
  datatype Config = Config(
    plexUrl: Option<string>,
    plexToken: Option<string>,
    libraries: Option<seq<string>>,
    outputDir: Option<string>,
    csvFilename: Option<Template>)

  /** The settings file the monitor writes when none exists. */
  const DefaultConfig := Config(
    Some("http://localhost:32400"),
    Some(PlaceholderToken),
    Some(["Movies", "TV Shows"]),
    Some("./data"),
    Some(DefaultTemplate))

  /** Why the monitor stops before connecting. */
  datatype SetupError = MissingSetting(key: string) | PlaceholderTokenUnchanged

  /** What is handed to the server client. */
  datatype Credentials = Credentials(url: string, token: string)

  /** `_connect_plex` up to the client call: read the URL and the token,
      and refuse the placeholder token. */
  function ConnectPlex(c: Config): (r: Result<Credentials, SetupError>)
    ensures r.Success? <==> c.plexUrl.Some? && c.plexToken.Some? && c.plexToken.value != PlaceholderToken
    ensures r.Success? ==> r.value == Credentials(c.plexUrl.value, c.plexToken.value)
    ensures r == Failure(PlaceholderTokenUnchanged) <==> c.plexUrl.Some? && c.plexToken == Some(PlaceholderToken)
  {
    if c.plexUrl.None? then Failure(MissingSetting("plex_url"))
    else if c.plexToken.None? then Failure(MissingSetting("plex_token"))
    else if c.plexToken.value == PlaceholderToken then Failure(PlaceholderTokenUnchanged)
    else Success(Credentials(c.plexUrl.value, c.plexToken.value))
  }

  /** A freshly written settings file never gets past the token check. */
  lemma DefaultConfigRejected()
    ensures ConnectPlex(DefaultConfig) == Failure(PlaceholderTokenUnchanged)
  {
  }

  /** `config.get('output_dir', './data')`. */
  function OutputDir(c: Config): (dir: string)
    ensures c.outputDir.Some? ==> dir == c.outputDir.value
    ensures c.outputDir.None? ==> dir == "./data"
  {
    c.outputDir.GetOr("./data")
  }

  /** `config.get('csv_filename', 'plex_library_{library}_{date}.csv')`. */
  function FilenameTemplate(c: Config): (t: Template)
    ensures c.csvFilename.Some? ==> t == c.csvFilename.value
    ensures c.csvFilename.None? ==> t == DefaultTemplate
  {
    c.csvFilename.GetOr(DefaultTemplate)
  }

  /** The settings file the monitor writes names the same output directory
      and file name template as the built-in fallbacks. */
  lemma DefaultConfigMatchesFallbacks()
    ensures OutputDir(DefaultConfig) == OutputDir(Config(None, None, None, None, None))
    ensures FilenameTemplate(DefaultConfig) == FilenameTemplate(Config(None, None, None, None, None))
  {
  }
}
