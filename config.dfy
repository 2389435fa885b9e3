/**
 * The provider's configuration values: the ten settings a user (or the
 * environment) supplies, and the values handed on to client construction.
 */
module Config {

  datatype Option<+T> = None | Some(value: T)

  /** The ten provider settings, in the order the provider declares and reads them. */
  datatype Key =
    | Username | Password | AccessToken | Server | ServerPath | Port
    | OAuthServer | OAuthServerPath | OAuthPort | Organization

  /** A setting's value: the schema has string-typed and int-typed settings only. */
  datatype Value = Str(s: string) | Int(n: int)

  /**
   * The configuration as supplied, environment variables already folded in.
   * A string setting equal to "" is unset; an unset port is None.
   */
  datatype Bundle = Bundle(
    username: string,
    password: string,
    accessToken: string,
    server: string,
    serverPath: string,
    port: Option<int>,
    oauthServer: string,
    oauthServerPath: string,
    oauthPort: Option<int>,
    organization: string)

  /**
   * The ten values after defaults are applied, in the order in which they
   * are read and then passed to client construction.
   */
  datatype Settings = Settings(
    username: string,
    password: string,
    accessToken: string,
    server: string,
    serverPath: string,
    port: int,
    oauthServer: string,
    oauthServerPath: string,
    oauthPort: int,
    organization: string)

  function StrSetting(s: string): Option<Value> {
    if s == "" then None else Some(Str(s))
  }

  function IntSetting(p: Option<int>): Option<Value> {
    match p
    case None => None
    case Some(n) => Some(Int(n))
  }

  /** The value the bundle gives the setting `k`, or None when it leaves it unset. */
  function Lookup(b: Bundle, k: Key): (r: Option<Value>)
    ensures r.Some? ==> (r.value.Int? <==> k == Port || k == OAuthPort)
    ensures r.Some? && r.value.Str? ==> r.value.s != ""
  {
    match k
    case Username => StrSetting(b.username)
    case Password => StrSetting(b.password)
    case AccessToken => StrSetting(b.accessToken)
    case Server => StrSetting(b.server)
    case ServerPath => StrSetting(b.serverPath)
    case Port => IntSetting(b.port)
    case OAuthServer => StrSetting(b.oauthServer)
    case OAuthServerPath => StrSetting(b.oauthServerPath)
    case OAuthPort => IntSetting(b.oauthPort)
    case Organization => StrSetting(b.organization)
  }

  predicate IsSet(b: Bundle, k: Key) {
    Lookup(b, k).Some?
  }

  /** The value a resolved setting holds. */
  function Field(s: Settings, k: Key): Value {
    match k
    case Username => Str(s.username)
    case Password => Str(s.password)
    case AccessToken => Str(s.accessToken)
    case Server => Str(s.server)
    case ServerPath => Str(s.serverPath)
    case Port => Int(s.port)
    case OAuthServer => Str(s.oauthServer)
    case OAuthServerPath => Str(s.oauthServerPath)
    case OAuthPort => Int(s.oauthPort)
    case Organization => Str(s.organization)
  }
}
