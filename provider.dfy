/**
 * The provider configuration: the constraint table of the provider's
 * settings, the configure step that reads the settings, rejects a
 * configuration with no credentials at all and hands the settings to client
 * construction.
 */
module Provider {
  import opened Config
  import opened SchemaValidation

  /** The default of both ports. */
  const DefaultPort: int := 443
  /** The inclusive bounds of a valid port. */
  const MinPort: int := 0
  const MaxPort: int := 65535

  /**
   * Constants of the client package that serve as defaults: the public
   * management server and its base path. Their values are not part of this model.
   */
  datatype ClientConstants = ClientConstants(publicServer: string, serverPath: string)

  /** The provider's constraint table, one entry per setting, in declaration order. */
  function ProviderSchema(k: ClientConstants): (r: seq<FieldSchema>)
    ensures |r| == 10
    ensures forall i, j :: 0 <= i < j < |r| ==> r[i].key != r[j].key
    ensures forall i :: 0 <= i < |r| ==> (r[i].required <==> r[i].key == Organization)
    ensures forall i :: 0 <= i < |r| && r[i].validate.Some? ==>
      r[i].validate == Some(IntBetween(0, 65535)) && r[i].default == Fallback(Int(443))
    ensures forall i :: 0 <= i < |r| && r[i].key in {Username, Password, AccessToken, OAuthServer} ==>
      AccessToken in r[i].conflictsWith + [r[i].key]
  {
    [ FieldSchema(Username, false, NoDefault, [AccessToken], [Password], None),
      FieldSchema(Password, false, NoDefault, [AccessToken], [Username], None),
      FieldSchema(AccessToken, false, NoDefault, [Username, Password, OAuthServer], [], None),
      FieldSchema(Server, false, Fallback(Str(k.publicServer)), [], [], None),
      FieldSchema(ServerPath, false, Fallback(Str(k.serverPath)), [], [], None),
      FieldSchema(Port, false, Fallback(Int(DefaultPort)), [], [], Some(IntBetween(MinPort, MaxPort))),
      FieldSchema(OAuthServer, false, NoDefault, [AccessToken], [Username, Password], None),
      FieldSchema(OAuthServerPath, false, NoDefault, [], [], None),
      FieldSchema(OAuthPort, false, Fallback(Int(DefaultPort)), [], [], Some(IntBetween(MinPort, MaxPort))),
      FieldSchema(Organization, true, NoDefault, [], [], None) ]
  }

  /**
   * Reading the ten settings as the configure step does: the supplied value,
   * else the schema default, else the empty string.
   */
  function Resolve(b: Bundle, k: ClientConstants): (s: Settings)
    ensures forall key :: IsSet(b, key) ==> Field(s, key) == Lookup(b, key).value
    ensures b.port.None? ==> s.port == DefaultPort
    ensures b.oauthPort.None? ==> s.oauthPort == DefaultPort
    ensures b.server == "" ==> s.server == k.publicServer
    ensures b.serverPath == "" ==> s.serverPath == k.serverPath
  {
    Settings(
      b.username,
      b.password,
      b.accessToken,
      if b.server == "" then k.publicServer else b.server,
      if b.serverPath == "" then k.serverPath else b.serverPath,
      match b.port case None => DefaultPort case Some(p) => p,
      b.oauthServer,
      b.oauthServerPath,
      match b.oauthPort case None => DefaultPort case Some(p) => p,
      b.organization)
  }

  /** The explicit check of the configure step: no credential of any kind is given. */
  predicate NoCredentials(s: Settings): (r: bool)
    ensures r ==> Classify(s).None?
  {
    s.username == "" && s.password == "" && s.accessToken == ""
  }

  /** Why a configuration is refused before a client is built. */
  datatype Reason =
    | InvalidSchema(errors: set<SchemaDiag>)
      // none of the three credential shapes (Basic, OAuth, access token) is given
    | NoAuthentication

  datatype Verdict = Accept(settings: Settings) | Reject(reason: Reason)

  /**
   * The whole validation: the schema constraints, then the defaults, then
   * the configure step's credential check.
   */
  function Validate(b: Bundle, k: ClientConstants): (v: Verdict)
    ensures v.Accept? ==> v.settings == Resolve(b, k) && !NoCredentials(v.settings)
    ensures v.Reject? && v.reason.InvalidSchema? ==> v.reason.errors != {}
    ensures v == Reject(NoAuthentication) ==> NoCredentials(Resolve(b, k))
  {
    var errors := SchemaDiagnostics(ProviderSchema(k), b);
    if errors != {} then Reject(InvalidSchema(errors))
    else
      var s := Resolve(b, k);
      if NoCredentials(s) then Reject(NoAuthentication) else Accept(s)
  }

  /** What client construction returns: a client, or an error message. */
  datatype ClientResult<C> = Built(client: C) | BuildError(message: string)

  datatype Failure = Rejected(reason: Reason) | ClientError(message: string)

  /** What the configure step returns: a client and no diagnostic, or a diagnostic and no client. */
  datatype Outcome<C> = Configured(client: C) | Failed(failure: Failure)

  /**
   * The configure step: validate, then pass the ten settings, unchanged and
   * in their declared order, to client construction `newClient`; a
   * construction error becomes the diagnostic.
   */
  function Configure<C>(b: Bundle, k: ClientConstants, newClient: Settings -> ClientResult<C>): (o: Outcome<C>)
    ensures o.Configured? <==> Validate(b, k).Accept? && newClient(Resolve(b, k)).Built?
    ensures o.Configured? ==> newClient(Resolve(b, k)) == Built(o.client)
    ensures Validate(b, k).Accept? && newClient(Resolve(b, k)).BuildError? ==>
      o == Failed(ClientError(newClient(Resolve(b, k)).message))
    ensures Validate(b, k).Reject? ==> o == Failed(Rejected(Validate(b, k).reason))
  {
    match Validate(b, k)
    case Reject(reason) => Failed(Rejected(reason))
    case Accept(s) =>
      match newClient(s)
      case Built(c) => Configured(c)
      case BuildError(e) => Failed(ClientError(e))
  }

  /** The three credential shapes the configure step's diagnostic names. */
  datatype Shape = BasicAuth | OAuthAuth | TokenAuth

  /** The credential shape of resolved settings, if they have exactly one. */
  function Classify(s: Settings): (r: Option<Shape>)
    ensures r.Some? ==> s.username != "" || s.accessToken != ""
    ensures r == Some(TokenAuth) ==> s.username == "" && s.password == "" && s.oauthServer == ""
    ensures r == Some(OAuthAuth) ==> s.accessToken == "" && s.username != "" && s.password != "" && s.oauthServer != ""
    ensures r == Some(BasicAuth) ==> s.accessToken == "" && s.username != "" && s.password != "" && s.oauthServer == ""
  {
    if s.accessToken != "" && s.username == "" && s.password == "" && s.oauthServer == "" then Some(TokenAuth)
    else if s.accessToken == "" && s.username != "" && s.password != "" then
      Some(if s.oauthServer != "" then OAuthAuth else BasicAuth)
    else None
  }
}
