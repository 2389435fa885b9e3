/**
 * What the provider's constraints amount to, stated directly on the bundle,
 * and the properties of validation and configuration proved from them.
 */
module CredentialProperties {
  import opened Config
  import opened SchemaValidation
  import opened Provider

  /** The credential pairing rules, read off the schema's ConflictsWith and RequiredWith lists. */
  predicate PairingRules(b: Bundle) {
    && (b.accessToken != "" ==> b.username == "" && b.password == "" && b.oauthServer == "")
    && (b.username != "" <==> b.password != "")
    && (b.oauthServer != "" ==> b.username != "" && b.password != "")
  }

  predicate PortInRange(p: Option<int>) {
    p.Some? ==> MinPort <= p.value <= MaxPort
  }

  /** Every schema constraint of the provider, stated directly on the bundle. */
  predicate SchemaRules(b: Bundle) {
    PairingRules(b) && PortInRange(b.port) && PortInRange(b.oauthPort) && b.organization != ""
  }

  /** The port diagnostic the range check yields for a supplied port. */
  function PortDiagnostic(key: Key, p: Option<int>): Option<SchemaDiag> {
    match p
    case None => None
    case Some(n) => if MinPort <= n <= MaxPort then None else Some(NotInRange(key, MinPort, MaxPort, n))
  }

  /** What the username and password entries yield: each needs the other and conflicts with access_token. */
  lemma UserPasswordEntries(b: Bundle, k: ClientConstants)
    ensures FieldDiagnostic(ProviderSchema(k)[0], b) ==
      if b.username == "" then None
      else if b.password == "" then Some(NotAllSpecified(Username, [Password]))
      else if b.accessToken != "" then Some(ConflictsWith(Username, AccessToken))
      else None
    ensures FieldDiagnostic(ProviderSchema(k)[1], b) ==
      if b.password == "" then None
      else if b.username == "" then Some(NotAllSpecified(Password, [Username]))
      else if b.accessToken != "" then Some(ConflictsWith(Password, AccessToken))
      else None
  {
    assert AllSet(b, [Password]) <==> b.password != "" by {
      assert [Password][0] == Password;
    }
    assert AllSet(b, [Username]) <==> b.username != "" by {
      assert [Username][0] == Username;
    }
  }

  /** What the access_token entry yields: a conflict with the first of username, password, oauth_server that is set. */
  lemma AccessTokenEntry(b: Bundle, k: ClientConstants)
    ensures FieldDiagnostic(ProviderSchema(k)[2], b) ==
      if b.accessToken == "" then None
      else if b.username != "" then Some(ConflictsWith(AccessToken, Username))
      else if b.password != "" then Some(ConflictsWith(AccessToken, Password))
      else if b.oauthServer != "" then Some(ConflictsWith(AccessToken, OAuthServer))
      else None
  {
    var conflicts := [Username, Password, OAuthServer];
    assert ProviderSchema(k)[2].conflictsWith == conflicts;
    if b.accessToken != "" && b.username == "" {
      assert FirstSet(b, conflicts) == FirstSet(b, conflicts[1..]);
      if b.password == "" {
        assert FirstSet(b, conflicts[1..]) == FirstSet(b, conflicts[2..]);
      }
    }
  }

  /** What the oauth_server entry yields: it needs username and password and conflicts with access_token. */
  lemma OAuthServerEntry(b: Bundle, k: ClientConstants)
    ensures FieldDiagnostic(ProviderSchema(k)[6], b) ==
      if b.oauthServer == "" then None
      else if b.username == "" || b.password == "" then Some(NotAllSpecified(OAuthServer, [Username, Password]))
      else if b.accessToken != "" then Some(ConflictsWith(OAuthServer, AccessToken))
      else None
  {
    assert AllSet(b, [Username, Password]) <==> b.username != "" && b.password != "" by {
      assert [Username, Password][0] == Username && [Username, Password][1] == Password;
    }
  }

  /** What the remaining entries yield: only a port out of range or a missing organization is reported. */
  lemma OtherEntries(b: Bundle, k: ClientConstants)
    ensures |ProviderSchema(k)| == 10
    ensures FieldDiagnostic(ProviderSchema(k)[3], b) == None
    ensures FieldDiagnostic(ProviderSchema(k)[4], b) == None
    ensures FieldDiagnostic(ProviderSchema(k)[5], b) == PortDiagnostic(Port, b.port)
    ensures FieldDiagnostic(ProviderSchema(k)[7], b) == None
    ensures FieldDiagnostic(ProviderSchema(k)[8], b) == PortDiagnostic(OAuthPort, b.oauthPort)
    ensures FieldDiagnostic(ProviderSchema(k)[9], b) ==
      if b.organization == "" then Some(MissingRequired(Organization)) else None
  {
  }

  /** The schema check passes exactly when the bundle meets every constraint. */
  lemma SchemaAcceptsExactly(b: Bundle, k: ClientConstants)
    ensures SchemaDiagnostics(ProviderSchema(k), b) == {} <==> SchemaRules(b)
  {
    var t := ProviderSchema(k);
    UserPasswordEntries(b, k);
    AccessTokenEntry(b, k);
    OAuthServerEntry(b, k);
    OtherEntries(b, k);
    if SchemaRules(b) {
      forall i | 0 <= i < |t| ensures FieldDiagnostic(t[i], b).None? {
        assert i in {0, 1, 2, 3, 4, 5, 6, 7, 8, 9};
      }
    } else {
      var i :| 0 <= i < 10 && FieldDiagnostic(t[i], b).Some?;
    }
  }

  /** Validation accepts exactly the bundles that meet the schema and give some credential. */
  lemma AcceptedExactly(b: Bundle, k: ClientConstants)
    ensures Validate(b, k).Accept? <==>
      SchemaRules(b) && !(b.username == "" && b.password == "" && b.accessToken == "")
  {
    SchemaAcceptsExactly(b, k);
  }

  /**
   * Given the pairing rules, the configure step's check for "no username, no
   * password and no access token" is the same as "no username and no access
   * token": the password test is redundant, and validation accepts exactly
   * the schema-valid bundles with a username or an access token.
   */
  lemma CredentialCheckRedundant(b: Bundle, k: ClientConstants)
    ensures PairingRules(b) ==> (NoCredentials(Resolve(b, k)) <==> b.username == "" && b.accessToken == "")
    ensures Validate(b, k).Accept? <==> SchemaRules(b) && (b.username != "" || b.accessToken != "")
  {
    AcceptedExactly(b, k);
  }

  /**
   * Every accepted configuration has exactly one credential shape: an access
   * token alone, or a username and password without an access token
   * (OAuth when an OAuth server is also given, Basic otherwise).
   */
  lemma AcceptedHasExactlyOneShape(b: Bundle, k: ClientConstants, s: Settings)
    requires Validate(b, k) == Accept(s)
    ensures (s.accessToken != "" && s.username == "" && s.password == "" && s.oauthServer == "")
         != (s.username != "" && s.password != "" && s.accessToken == "")
    ensures Classify(s).Some?
    ensures Classify(s) == Some(TokenAuth) <==> s.accessToken != ""
    ensures Classify(s) == Some(OAuthAuth) <==> s.oauthServer != ""
    ensures Classify(s) == Some(BasicAuth) <==> s.accessToken == "" && s.oauthServer == ""
  {
    AcceptedExactly(b, k);
  }

  /** A bundle with no username, password or access token is rejected, by the credential check when the schema holds. */
  lemma NoCredentialsRejected(b: Bundle, k: ClientConstants)
    requires b.username == "" && b.password == "" && b.accessToken == ""
    ensures Validate(b, k).Reject?
    ensures SchemaRules(b) ==> Validate(b, k) == Reject(NoAuthentication)
  {
    SchemaAcceptsExactly(b, k);
  }

  /** An access token together with a username, password or OAuth server is rejected as a conflict. */
  lemma AccessTokenConflictRejected(b: Bundle, k: ClientConstants)
    requires b.accessToken != "" && (b.username != "" || b.password != "" || b.oauthServer != "")
    ensures Validate(b, k).Reject? && Validate(b, k).reason.InvalidSchema?
    ensures ConflictsWith(AccessToken,
      if b.username != "" then Username else if b.password != "" then Password else OAuthServer)
      in Validate(b, k).reason.errors
  {
    AccessTokenEntry(b, k);
    assert FieldDiagnostic(ProviderSchema(k)[2], b).Some?;
  }

  /** A username without a password, or a password without a username, is rejected. */
  lemma UnpairedCredentialRejected(b: Bundle, k: ClientConstants)
    requires (b.username != "") != (b.password != "")
    ensures Validate(b, k).Reject? && Validate(b, k).reason.InvalidSchema?
    ensures b.username != "" ==> NotAllSpecified(Username, [Password]) in Validate(b, k).reason.errors
    ensures b.password != "" ==> NotAllSpecified(Password, [Username]) in Validate(b, k).reason.errors
  {
    UserPasswordEntries(b, k);
    var t := ProviderSchema(k);
    if b.username != "" {
      assert FieldDiagnostic(t[0], b).Some?;
    } else {
      assert FieldDiagnostic(t[1], b).Some?;
    }
  }

  /** An OAuth server without both a username and a password is rejected. */
  lemma OAuthServerWithoutCredentialsRejected(b: Bundle, k: ClientConstants)
    requires b.oauthServer != "" && (b.username == "" || b.password == "")
    ensures Validate(b, k).Reject? && Validate(b, k).reason.InvalidSchema?
    ensures NotAllSpecified(OAuthServer, [Username, Password]) in Validate(b, k).reason.errors
  {
    OAuthServerEntry(b, k);
    assert FieldDiagnostic(ProviderSchema(k)[6], b).Some?;
  }

  /** A port or OAuth port outside 0..65535 is rejected with a range diagnostic naming the value. */
  lemma PortOutOfRangeRejected(b: Bundle, k: ClientConstants)
    requires !PortInRange(b.port) || !PortInRange(b.oauthPort)
    ensures Validate(b, k).Reject? && Validate(b, k).reason.InvalidSchema?
    ensures !PortInRange(b.port) ==>
      NotInRange(Port, 0, 65535, b.port.value) in Validate(b, k).reason.errors
    ensures !PortInRange(b.oauthPort) ==>
      NotInRange(OAuthPort, 0, 65535, b.oauthPort.value) in Validate(b, k).reason.errors
  {
    OtherEntries(b, k);
    var t := ProviderSchema(k);
    if !PortInRange(b.port) {
      assert FieldDiagnostic(t[5], b).Some?;
    }
    if !PortInRange(b.oauthPort) {
      assert FieldDiagnostic(t[8], b).Some?;
    }
  }

  /** An unset port defaults to 443, which is in range, and draws no diagnostic. */
  lemma UnsetPortsDefault(b: Bundle, k: ClientConstants)
    ensures b.port.None? ==> Resolve(b, k).port == 443 && MinPort <= Resolve(b, k).port <= MaxPort
    ensures b.oauthPort.None? ==> Resolve(b, k).oauthPort == 443 && MinPort <= Resolve(b, k).oauthPort <= MaxPort
    ensures b.port.None? ==> forall d :: d in SchemaDiagnostics(ProviderSchema(k), b) ==> d.key != Port
    ensures b.oauthPort.None? ==> forall d :: d in SchemaDiagnostics(ProviderSchema(k), b) ==> d.key != OAuthPort
  {
    OtherEntries(b, k);
    var t := ProviderSchema(k);
    forall d | d in SchemaDiagnostics(t, b)
      ensures b.port.None? ==> d.key != Port
      ensures b.oauthPort.None? ==> d.key != OAuthPort
    {
      var i :| 0 <= i < |t| && FieldDiagnostic(t[i], b) == Some(d);
      assert i in {0, 1, 2, 3, 4, 5, 6, 7, 8, 9};
    }
  }

  /** A bundle without an organization is rejected as missing a required setting. */
  lemma OrganizationRequired(b: Bundle, k: ClientConstants)
    requires b.organization == ""
    ensures Validate(b, k).Reject? && Validate(b, k).reason.InvalidSchema?
    ensures MissingRequired(Organization) in Validate(b, k).reason.errors
  {
    OtherEntries(b, k);
    assert FieldDiagnostic(ProviderSchema(k)[9], b).Some?;
  }

  /**
   * The settings read by the configure step are the schema's effective
   * values: the supplied value when there is one, else the declared default,
   * else the empty string.
   */
  lemma ResolveAgreesWithSchema(b: Bundle, k: ClientConstants)
    ensures forall i :: 0 <= i < |ProviderSchema(k)| ==>
      Field(Resolve(b, k), ProviderSchema(k)[i].key) ==
        match Effective(ProviderSchema(k)[i], b) case Some(v) => v case None => Str("")
  {
  }

  /** A rejected bundle never reaches client construction: the outcome does not depend on it. */
  lemma RejectedNeverConstructs<C>(b: Bundle, k: ClientConstants,
                                   nc1: Settings -> ClientResult<C>, nc2: Settings -> ClientResult<C>)
    requires Validate(b, k).Reject?
    ensures Configure(b, k, nc1) == Configure(b, k, nc2)
    ensures Configure(b, k, nc1).Failed? && Configure(b, k, nc1).failure.Rejected?
  {
  }
}
