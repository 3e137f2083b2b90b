/**
  The environment-to-configuration pipeline of src/config.ts: validate the raw
  environment, derive the port, normalise the issuer, choose the trend-data
  directory, derive the expected audiences, parse the allowed OAuth clients and
  assemble the configuration record. Every step that throws in the source
  returns a `Failure` here, and nothing after it runs.
 */
module Config {
  import opened Wrappers
  import opened JsString
  import opened JsNumber
  import opened OAuthClients

  // The environment variables the schema declares.
  const PortKey := "PORT"
  const ResourceServerUrlKey := "RESOURCE_SERVER_URL"
  const Auth0IssuerKey := "AUTH0_ISSUER"
  const JwtAudiencesKey := "JWT_AUDIENCES"
  const RequiredScopesKey := "REQUIRED_SCOPES"
  const OpenAiApiKeyKey := "OPENAI_API_KEY"
  const VectorStoreIdKey := "VECTOR_STORE_ID"
  const TrendDataDirKey := "TREND_DATA_DIR"
  const OAuthAllowedClientsKey := "OAUTH_ALLOWED_CLIENTS"
  const ServiceDocumentationUrlKey := "SERVICE_DOCUMENTATION_URL"

  const DefaultPort := 8788
  const LocalhostPrefix := "http://localhost:"

  /**
    What the module takes from its host instead of computing: whether the URL
    parser accepts a string (`new URL(s)` succeeds, which is also what the
    schema's `.url()` asks), `path.resolve(base, ...segments)`, the working
    directory, and `anchorDir`: `dirname` applied three times to the module's
    own file (for `src/config.ts`, the directory that contains the package).
    `anchorDir` is an absolute path (it comes from `fileURLToPath` of the
    module's URL), which is why `resolve` from it never consults the working
    directory; `resolve` takes its base explicitly here, so that independence
    is stated by which argument it receives.
   */
  datatype Platform = Platform(
    isUrl: string -> bool,
    resolve: (string, seq<string>) -> string,
    cwd: string,
    anchorDir: string)

  /** A schema violation for one field. */
  datatype FieldIssue = Required(field: string) | NotUrl(field: string)

  /** Every way the pipeline fails; each stops it before a configuration exists. */
  datatype ConfigError =
    | SchemaViolation(issues: seq<FieldIssue>)
    | PortNotInteger
    | AllowList(error: ClientError)
    | UrlRejected(input: string)

  /** A `URL` object, identified by the text it was built from. */
  datatype Url = Url(input: string)

  /** The environment after the schema accepted it; `auth0Issuer` is the one mandatory field. */
  datatype RawEnv = RawEnv(
    port: Option<string>,
    resourceServerUrl: Option<string>,
    auth0Issuer: string,
    jwtAudiences: Option<string>,
    requiredScopes: Option<string>,
    openAiApiKey: Option<string>,
    vectorStoreId: Option<string>,
    trendDataDir: Option<string>,
    oauthAllowedClients: Option<string>,
    serviceDocumentationUrl: Option<string>)

  /** The exported `config` object. */
  datatype AppConfig = AppConfig(
    port: int,
    auth0Issuer: string,
    resourceServerUrl: Url,
    openAiApiKey: Option<string>,
    vectorStoreId: Option<string>,
    trendDataDir: string,
    requiredScopes: seq<string>,
    expectedAudiences: seq<string>,
    allowedOAuthClients: Registry,
    serviceDocumentationUrl: Option<Url>)

  function Lookup(env: map<string, string>, key: string): Option<string>
  {
    if key in env then Some(env[key]) else None
  }

  /** The schema's field errors, in declaration order: every offending field, not only the first. */
  function SchemaIssues(env: map<string, string>, isUrl: string -> bool): (issues: seq<FieldIssue>)
    ensures Required(Auth0IssuerKey) in issues <==> Auth0IssuerKey !in env
    ensures NotUrl(Auth0IssuerKey) in issues <==> Auth0IssuerKey in env && !isUrl(env[Auth0IssuerKey])
    ensures NotUrl(ResourceServerUrlKey) in issues <==> ResourceServerUrlKey in env && !isUrl(env[ResourceServerUrlKey])
    ensures forall k :: 0 <= k < |issues| ==> issues[k].field in {ResourceServerUrlKey, Auth0IssuerKey}
    ensures Required(ResourceServerUrlKey) !in issues
    ensures |issues| <= 2 && (|issues| == 2 ==> issues[0] != issues[1])
    ensures issues == [] <==>
              && Auth0IssuerKey in env && isUrl(env[Auth0IssuerKey])
              && (ResourceServerUrlKey in env ==> isUrl(env[ResourceServerUrlKey]))
  {
    (if ResourceServerUrlKey in env && !isUrl(env[ResourceServerUrlKey]) then [NotUrl(ResourceServerUrlKey)] else [])
    + (if Auth0IssuerKey !in env then [Required(Auth0IssuerKey)]
       else if !isUrl(env[Auth0IssuerKey]) then [NotUrl(Auth0IssuerKey)]
       else [])
  }

  /** `envSchema.safeParse(env)`: the typed environment, or every field issue at once. */
  function ValidateSchema(env: map<string, string>, isUrl: string -> bool): (r: Result<RawEnv, seq<FieldIssue>>)
    ensures r.Failure? <==> SchemaIssues(env, isUrl) != []
    ensures r.Failure? ==> r.error == SchemaIssues(env, isUrl)
    ensures r.Success? ==> Auth0IssuerKey in env && r.value.auth0Issuer == env[Auth0IssuerKey] && isUrl(r.value.auth0Issuer)
    ensures r.Success? && r.value.resourceServerUrl.Some? ==> isUrl(r.value.resourceServerUrl.value)
    ensures r.Success? ==>
              && r.value.port == Lookup(env, PortKey)
              && r.value.resourceServerUrl == Lookup(env, ResourceServerUrlKey)
              && r.value.jwtAudiences == Lookup(env, JwtAudiencesKey)
              && r.value.requiredScopes == Lookup(env, RequiredScopesKey)
              && r.value.openAiApiKey == Lookup(env, OpenAiApiKeyKey)
              && r.value.vectorStoreId == Lookup(env, VectorStoreIdKey)
              && r.value.trendDataDir == Lookup(env, TrendDataDirKey)
              && r.value.oauthAllowedClients == Lookup(env, OAuthAllowedClientsKey)
              && r.value.serviceDocumentationUrl == Lookup(env, ServiceDocumentationUrlKey)
  {
    var issues := SchemaIssues(env, isUrl);
    if issues != [] then Failure(issues)
    else
      Success(RawEnv(
        Lookup(env, PortKey),
        Lookup(env, ResourceServerUrlKey),
        env[Auth0IssuerKey],
        Lookup(env, JwtAudiencesKey),
        Lookup(env, RequiredScopesKey),
        Lookup(env, OpenAiApiKeyKey),
        Lookup(env, VectorStoreIdKey),
        Lookup(env, TrendDataDirKey),
        Lookup(env, OAuthAllowedClientsKey),
        Lookup(env, ServiceDocumentationUrlKey)))
  }

  /** `Number.parseInt(PORT ?? "8788", 10)`, and the throw when that is NaN. */
  function ResolvePort(portVar: Option<string>): (r: Result<int, ConfigError>)
    ensures portVar.None? ==> r == Success(DefaultPort)
    ensures portVar.Some? ==> (r.Failure? <==> ParseInt(portVar.value).None?)
    ensures r.Success? && portVar.Some? ==> ParseInt(portVar.value) == Some(r.value)
    ensures r.Failure? ==> r.error == PortNotInteger
  {
    ParseIntOfIntToDecimal(DefaultPort);
    match ParseInt(portVar.GetOr(IntToDecimal(DefaultPort)))
    case None => Failure(PortNotInteger)
    case Some(port) => Success(port)
  }

  predicate EndsWithSlash(s: string) {
    |s| > 0 && s[|s| - 1] == '/'
  }

  /** The issuer with a `/` appended unless it already ends in one. */
  function NormalizeIssuer(issuer: string): (r: string)
    ensures EndsWithSlash(r)
    ensures issuer <= r && |r| <= |issuer| + 1
    ensures r == issuer <==> EndsWithSlash(issuer)
  {
    if EndsWithSlash(issuer) then issuer else issuer + "/"
  }

  /** Normalising a normalised issuer changes nothing. */
  lemma NormalizeIssuerIdempotent(issuer: string)
    ensures NormalizeIssuer(NormalizeIssuer(issuer)) == NormalizeIssuer(issuer)
  {
  }

  /** `resolve(dirname(dirname(dirname(moduleFile))), 'synthetic_financial_data', 'web_search_trends')` */
  function DefaultTrendDataDir(p: Platform): string
  {
    p.resolve(p.anchorDir, ["synthetic_financial_data", "web_search_trends"])
  }

  /** `TREND_DATA_DIR ? resolve(TREND_DATA_DIR) : defaultTrendDataDir`; the empty string counts as unset. */
  function TrendDataDir(trendVar: Option<string>, p: Platform): string
  {
    if trendVar.Some? && trendVar.value != "" then p.resolve(p.cwd, [trendVar.value])
    else DefaultTrendDataDir(p)
  }

  /** A non-empty `TREND_DATA_DIR` is resolved against the working directory; the anchor directory plays no part. */
  lemma TrendDataDirFollowsVariable(trendVar: string, p: Platform, otherAnchor: string)
    requires trendVar != ""
    ensures TrendDataDir(Some(trendVar), p) == p.resolve(p.cwd, [trendVar])
    ensures TrendDataDir(Some(trendVar), p.(anchorDir := otherAnchor)) == TrendDataDir(Some(trendVar), p)
  {
  }

  /** Unset or empty, the trend directory is the module-anchored default, whatever the working directory. */
  lemma TrendDataDirIgnoresCwdWhenUnset(trendVar: Option<string>, p: Platform, otherCwd: string)
    requires trendVar.None? || trendVar.value == ""
    ensures TrendDataDir(trendVar, p) == DefaultTrendDataDir(p)
    ensures TrendDataDir(trendVar, p.(cwd := otherCwd)) == TrendDataDir(trendVar, p)
  {
  }

  /** `http://localhost:${port}`, the default resource server URL. */
  function LocalhostUrl(port: int): (url: string)
    ensures |url| > |LocalhostPrefix| && url[..|LocalhostPrefix|] == LocalhostPrefix
    ensures ParseInt(url[|LocalhostPrefix|..]) == Some(port)
  {
    ParseIntOfIntToDecimal(port);
    var url := LocalhostPrefix + IntToDecimal(port);
    assert url[|LocalhostPrefix|..] == IntToDecimal(port);
    url
  }

  /** The audiences listed in `JWT_AUDIENCES` (unset read as ""): comma fields, trimmed, blanks dropped. */
  function ListedAudiences(jwtAudiences: Option<string>): (listed: seq<string>)
    ensures forall k :: 0 <= k < |listed| ==> listed[k] != "" && IsTrimmed(listed[k]) && ',' !in listed[k]
  {
    Tokens(jwtAudiences.GetOr(""), ',')
  }

  /** The expected audiences: the listed ones, or else the raw resource server URL or its localhost default. */
  function Audiences(jwtAudiences: Option<string>, resourceServerUrl: Option<string>, port: int): (audiences: seq<string>)
    ensures |audiences| >= 1
  {
    var listed := ListedAudiences(jwtAudiences);
    if |listed| == 0 then [resourceServerUrl.GetOr(LocalhostUrl(port))] else listed
  }

  /** The audience array built and then pushed to when empty. */
  method ExpectedAudiences(jwtAudiences: Option<string>, resourceServerUrl: Option<string>, port: int)
    returns (audiences: seq<string>)
    ensures audiences == Audiences(jwtAudiences, resourceServerUrl, port)
    ensures |audiences| >= 1
  {
    audiences := ListedAudiences(jwtAudiences);
    if |audiences| == 0 {
      audiences := audiences + [resourceServerUrl.GetOr(LocalhostUrl(port))];
    }
  }

  /** The audiences are never empty. */
  lemma AudiencesNeverEmpty(jwtAudiences: Option<string>, resourceServerUrl: Option<string>, port: int)
    ensures |Audiences(jwtAudiences, resourceServerUrl, port)| >= 1
  {
  }

  /**
    When `JWT_AUDIENCES` lists something, the audiences are exactly those
    fields: each non-empty, trimmed and free of commas.
   */
  lemma ListedAudiencesAreUsed(jwtAudiences: Option<string>, resourceServerUrl: Option<string>, port: int)
    requires ListedAudiences(jwtAudiences) != []
    ensures var aud := Audiences(jwtAudiences, resourceServerUrl, port);
            && aud == ListedAudiences(jwtAudiences)
            && forall k :: 0 <= k < |aud| ==> aud[k] != "" && IsTrimmed(aud[k]) && ',' !in aud[k]
  {
  }

  /** When nothing is listed, the one audience is the raw `RESOURCE_SERVER_URL`, else `http://localhost:<port>`. */
  lemma AudienceFallback(jwtAudiences: Option<string>, resourceServerUrl: Option<string>, port: int)
    requires ListedAudiences(jwtAudiences) == []
    ensures resourceServerUrl.Some? ==> Audiences(jwtAudiences, resourceServerUrl, port) == [resourceServerUrl.value]
    ensures resourceServerUrl.None? ==> Audiences(jwtAudiences, resourceServerUrl, port) == [LocalhostUrl(port)]
  {
  }

  /** `SERVICE_DOCUMENTATION_URL ? new URL(...) : undefined`: an unusable non-empty value throws. */
  function ServiceDocumentationUrl(docVar: Option<string>, isUrl: string -> bool): (r: Result<Option<Url>, ConfigError>)
    ensures docVar.None? || docVar.value == "" ==> r == Success(None)
    ensures r.Success? && r.value.Some? ==> docVar == Some(r.value.value.input) && isUrl(r.value.value.input)
    ensures r.Failure? ==> docVar.Some? && r.error == UrlRejected(docVar.value) && !isUrl(docVar.value)
    ensures docVar.Some? && docVar.value != "" ==>
              && (r.Failure? <==> !isUrl(docVar.value))
              && (r.Success? ==> r.value == Some(Url(docVar.value)))
  {
    if docVar.Some? && docVar.value != "" then
      if isUrl(docVar.value) then Success(Some(Url(docVar.value))) else Failure(UrlRejected(docVar.value))
    else Success(None)
  }

  /** The whole pipeline, step by step in source order; the first failing step decides. */
  function Resolve(env: map<string, string>, p: Platform): Result<AppConfig, ConfigError>
  {
    match ValidateSchema(env, p.isUrl)
    case Failure(issues) => Failure(SchemaViolation(issues))
    case Success(raw) =>
      match ResolvePort(raw.port)
      case Failure(e) => Failure(e)
      case Success(port) =>
        var issuer := NormalizeIssuer(raw.auth0Issuer);
        var trendDataDir := TrendDataDir(raw.trendDataDir, p);
        var audiences := Audiences(raw.jwtAudiences, raw.resourceServerUrl, port);
        match AllowedClients(raw.oauthAllowedClients)
        case Failure(e) => Failure(AllowList(e))
        case Success(clients) =>
          var resourceServerUrl := raw.resourceServerUrl.GetOr(LocalhostUrl(port));
          match ServiceDocumentationUrl(raw.serviceDocumentationUrl, p.isUrl)
          case Failure(e) => Failure(e)
          case Success(doc) =>
            if !p.isUrl(resourceServerUrl) then Failure(UrlRejected(resourceServerUrl))
            else
              Success(AppConfig(
                port, issuer, Url(resourceServerUrl), raw.openAiApiKey, raw.vectorStoreId,
                trendDataDir, [], audiences, clients, doc))
  }

  /** The module's top-level statements: each step runs, or throws and ends the pipeline. */
  method LoadConfig(env: map<string, string>, p: Platform) returns (r: Result<AppConfig, ConfigError>)
    ensures r == Resolve(env, p)
  {
    var parsed := ValidateSchema(env, p.isUrl);
    if parsed.Failure? {
      return Failure(SchemaViolation(parsed.error));
    }
    var raw := parsed.value;
    var port := ParseInt(raw.port.GetOr(IntToDecimal(DefaultPort)));
    if port.None? {
      return Failure(PortNotInteger);
    }
    var normalizedIssuer := NormalizeIssuer(raw.auth0Issuer);
    var trendDataDir := TrendDataDir(raw.trendDataDir, p);
    var requiredScopes: seq<string> := [];
    var expectedAudiences := ExpectedAudiences(raw.jwtAudiences, raw.resourceServerUrl, port.value);
    var allowedOAuthClients := ParseAllowedClients(raw.oauthAllowedClients);
    if allowedOAuthClients.Failure? {
      return Failure(AllowList(allowedOAuthClients.error));
    }
    var resourceServerUrl := raw.resourceServerUrl.GetOr(LocalhostUrl(port.value));
    var serviceDocumentationUrl := ServiceDocumentationUrl(raw.serviceDocumentationUrl, p.isUrl);
    if serviceDocumentationUrl.Failure? {
      return Failure(serviceDocumentationUrl.error);
    }
    if !p.isUrl(resourceServerUrl) {
      return Failure(UrlRejected(resourceServerUrl));
    }
    r := Success(AppConfig(
      port.value, normalizedIssuer, Url(resourceServerUrl), raw.openAiApiKey, raw.vectorStoreId,
      trendDataDir, requiredScopes, expectedAudiences, allowedOAuthClients.value, serviceDocumentationUrl.value));
  }

  /**
    A schema violation stops the pipeline before the port, the audiences or
    the allow-list are looked at, and the error lists every offending field.
   */
  lemma SchemaViolationStopsPipeline(env: map<string, string>, p: Platform)
    requires || Auth0IssuerKey !in env
             || !p.isUrl(env[Auth0IssuerKey])
             || (ResourceServerUrlKey in env && !p.isUrl(env[ResourceServerUrlKey]))
    ensures Resolve(env, p) == Failure(SchemaViolation(SchemaIssues(env, p.isUrl)))
    ensures var issues := SchemaIssues(env, p.isUrl);
            && (Auth0IssuerKey !in env ==> Required(Auth0IssuerKey) in issues)
            && (Auth0IssuerKey in env && !p.isUrl(env[Auth0IssuerKey]) ==> NotUrl(Auth0IssuerKey) in issues)
            && (ResourceServerUrlKey in env && !p.isUrl(env[ResourceServerUrlKey]) ==> NotUrl(ResourceServerUrlKey) in issues)
  {
  }

  /** A `PORT` that `parseInt` reads as NaN stops the pipeline once the schema has passed. */
  lemma PortNotIntegerStopsPipeline(env: map<string, string>, p: Platform)
    requires SchemaIssues(env, p.isUrl) == []
    requires PortKey in env && ParseInt(env[PortKey]).None?
    ensures Resolve(env, p) == Failure(PortNotInteger)
  {
  }

  /** An allow-list entry that does not parse stops the pipeline with that entry's error. */
  lemma AllowListErrorStopsPipeline(env: map<string, string>, p: Platform)
    requires SchemaIssues(env, p.isUrl) == []
    requires ResolvePort(Lookup(env, PortKey)).Success?
    requires AllowedClients(Lookup(env, OAuthAllowedClientsKey)).Failure?
    ensures Resolve(env, p) == Failure(AllowList(AllowedClients(Lookup(env, OAuthAllowedClientsKey)).error))
  {
  }

  /**
    A non-empty `SERVICE_DOCUMENTATION_URL` the URL parser rejects stops the
    pipeline with that text, once the schema, the port and the allow-list pass.
   */
  lemma DocumentationUrlErrorStopsPipeline(env: map<string, string>, p: Platform)
    requires SchemaIssues(env, p.isUrl) == []
    requires ResolvePort(Lookup(env, PortKey)).Success?
    requires AllowedClients(Lookup(env, OAuthAllowedClientsKey)).Success?
    requires ServiceDocumentationUrlKey in env && env[ServiceDocumentationUrlKey] != ""
    requires !p.isUrl(env[ServiceDocumentationUrlKey])
    ensures Resolve(env, p) == Failure(UrlRejected(env[ServiceDocumentationUrlKey]))
  {
  }

  /**
    Without `RESOURCE_SERVER_URL`, a localhost default the URL parser rejects
    stops the pipeline with that text, once every earlier step has passed.
   */
  lemma LocalhostUrlRejectedStopsPipeline(env: map<string, string>, p: Platform)
    requires SchemaIssues(env, p.isUrl) == []
    requires ResolvePort(Lookup(env, PortKey)).Success?
    requires AllowedClients(Lookup(env, OAuthAllowedClientsKey)).Success?
    requires ServiceDocumentationUrl(Lookup(env, ServiceDocumentationUrlKey), p.isUrl).Success?
    requires ResourceServerUrlKey !in env
    requires !p.isUrl(LocalhostUrl(ResolvePort(Lookup(env, PortKey)).value))
    ensures Resolve(env, p) == Failure(UrlRejected(LocalhostUrl(ResolvePort(Lookup(env, PortKey)).value)))
  {
  }

  /** An environment that every step accepts yields a configuration. */
  lemma ValidEnvironmentResolves(env: map<string, string>, p: Platform)
    requires SchemaIssues(env, p.isUrl) == []
    requires ResolvePort(Lookup(env, PortKey)).Success?
    requires AllowedClients(Lookup(env, OAuthAllowedClientsKey)).Success?
    requires ServiceDocumentationUrl(Lookup(env, ServiceDocumentationUrlKey), p.isUrl).Success?
    requires p.isUrl(Lookup(env, ResourceServerUrlKey).GetOr(LocalhostUrl(ResolvePort(Lookup(env, PortKey)).value)))
    ensures Resolve(env, p).Success?
  {
  }

  /** The only URLs the final assembly can reject are the documentation URL and the localhost default. */
  lemma RejectedUrlIsDocumentationOrLocalhost(env: map<string, string>, p: Platform, input: string)
    requires Resolve(env, p) == Failure(UrlRejected(input))
    ensures || (ServiceDocumentationUrlKey in env && input == env[ServiceDocumentationUrlKey])
            || (ResourceServerUrlKey !in env && PortKey in env && ParseInt(env[PortKey]).Some?
                && input == LocalhostUrl(ParseInt(env[PortKey]).value))
            || (ResourceServerUrlKey !in env && PortKey !in env && input == LocalhostUrl(DefaultPort))
  {
    var raw := ValidateSchema(env, p.isUrl).value;
    var port := ResolvePort(raw.port).value;
    var clients := AllowedClients(raw.oauthAllowedClients).value;
    var doc := ServiceDocumentationUrl(raw.serviceDocumentationUrl, p.isUrl);
    if doc.Success? {
      var resourceServerUrl := raw.resourceServerUrl.GetOr(LocalhostUrl(port));
      assert !p.isUrl(resourceServerUrl) && input == resourceServerUrl;
      assert raw.resourceServerUrl.None?;
    }
  }

  /** What every configuration the pipeline produces satisfies. */
  lemma ResolvedConfigGuarantees(env: map<string, string>, p: Platform, c: AppConfig)
    requires Resolve(env, p) == Success(c)
    ensures Auth0IssuerKey in env && p.isUrl(env[Auth0IssuerKey])
    ensures c.auth0Issuer == NormalizeIssuer(env[Auth0IssuerKey]) && EndsWithSlash(c.auth0Issuer)
    ensures PortKey !in env ==> c.port == DefaultPort
    ensures PortKey in env ==> ParseInt(env[PortKey]) == Some(c.port)
    ensures p.isUrl(c.resourceServerUrl.input)
    ensures ResourceServerUrlKey in env ==> c.resourceServerUrl.input == env[ResourceServerUrlKey]
    ensures ResourceServerUrlKey !in env ==> c.resourceServerUrl.input == LocalhostUrl(c.port)
    ensures |c.expectedAudiences| >= 1
    ensures c.requiredScopes == []
    ensures c.allowedOAuthClients.Valid() && WellFormedRegistry(c.allowedOAuthClients)
    ensures TrendDataDirKey !in env || env[TrendDataDirKey] == "" ==> c.trendDataDir == DefaultTrendDataDir(p)
    ensures TrendDataDirKey in env && env[TrendDataDirKey] != "" ==> c.trendDataDir == p.resolve(p.cwd, [env[TrendDataDirKey]])
    ensures c.expectedAudiences == Audiences(Lookup(env, JwtAudiencesKey), Lookup(env, ResourceServerUrlKey), c.port)
    ensures AllowedClients(Lookup(env, OAuthAllowedClientsKey)) == Success(c.allowedOAuthClients)
    ensures c.serviceDocumentationUrl.Some? <==> ServiceDocumentationUrlKey in env && env[ServiceDocumentationUrlKey] != ""
    ensures c.openAiApiKey == Lookup(env, OpenAiApiKeyKey) && c.vectorStoreId == Lookup(env, VectorStoreIdKey)
  {
    ResolvedShape(env, p, c);
    SuccessIsWellFormed(Lookup(env, OAuthAllowedClientsKey), c.allowedOAuthClients);
  }

  /** A resolved configuration is assembled from the validated variables, field by field. */
  lemma ResolvedShape(env: map<string, string>, p: Platform, c: AppConfig)
    requires Resolve(env, p) == Success(c)
    ensures SchemaIssues(env, p.isUrl) == []
    ensures ResolvePort(Lookup(env, PortKey)) == Success(c.port)
    ensures c.auth0Issuer == NormalizeIssuer(env[Auth0IssuerKey])
    ensures c.resourceServerUrl == Url(Lookup(env, ResourceServerUrlKey).GetOr(LocalhostUrl(c.port)))
    ensures c.openAiApiKey == Lookup(env, OpenAiApiKeyKey) && c.vectorStoreId == Lookup(env, VectorStoreIdKey)
    ensures c.trendDataDir == TrendDataDir(Lookup(env, TrendDataDirKey), p)
    ensures c.requiredScopes == []
    ensures c.expectedAudiences == Audiences(Lookup(env, JwtAudiencesKey), Lookup(env, ResourceServerUrlKey), c.port)
    ensures AllowedClients(Lookup(env, OAuthAllowedClientsKey)) == Success(c.allowedOAuthClients)
    ensures ServiceDocumentationUrl(Lookup(env, ServiceDocumentationUrlKey), p.isUrl) == Success(c.serviceDocumentationUrl)
    ensures p.isUrl(c.resourceServerUrl.input)
  {
  }

}
