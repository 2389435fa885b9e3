# Apigee provider configuration: credential validation

This project models how the Apigee Terraform provider validates its configuration and passes it on to client construction (`apigee/provider.go`). The provider has ten settings: `username`, `password`, `access_token`, `server`, `server_path`, `port`, `oauth_server`, `oauth_server_path`, `oauth_port` and `organization`. They pass through two layers:

1. **The schema table** of `Provider()`. Each setting declares some of these: a default, `Required`, `RequiredWith` (partners that must also be set), `ConflictsWith` (settings that must not be set with it), and `IntBetween(0, 65535)` for the ports. The plugin framework checks this table before configuration.
2. **`providerConfigure`**. It reads the ten values with their defaults and rejects the configuration when username, password and access token are all empty. Otherwise it calls client construction with the ten values in their declared order. A construction error becomes the diagnostic, and no client is returned.

The model is pure, with no classes and no loops, like the source.

- `config.dfy` (module `Config`) holds the configuration. `Bundle` is the raw input: an empty string means unset, and an unset port is `None`. `Settings` is the ten values after defaults, in the order client construction receives them.
- `schema.dfy` (module `SchemaValidation`) holds the table as data (`FieldSchema`) and the framework's per-setting check (`FieldDiagnostic`). `SchemaDiagnostics` gathers every setting's diagnostic into one set. It is a set because the framework visits the settings in no fixed order.
- `provider.dfy` (module `Provider`) holds the provider's own table `ProviderSchema`, the defaults step `Resolve`, and `Validate`. `Validate` returns `Accept(settings)` or `Reject(reason)`. `Configure` is the hand-off to a client constructor, which is passed in as a function. `Classify` names the three credential shapes that the diagnostic mentions: Basic, OAuth and access token.
- `properties.dfy` (module `CredentialProperties`) holds `SchemaRules`, a direct statement of every constraint on the bundle. The lemmas there connect `SchemaRules` to the table-driven check, and prove the properties below.

The main result is `AcceptedHasExactlyOneShape`. Every accepted configuration has exactly one of two credential shapes:
- an access token, with no username, password or OAuth server;
- a username and a password, with no access token, and optionally an OAuth server.

`CredentialCheckRedundant` shows that, once the pairing rules hold, the explicit check in `providerConfigure` (all three credentials empty) is the same as "username and access token both empty". The password test adds nothing.

Two points about the code itself:
- The code's explicit check rejects only a configuration with no credential at all. Mutual exclusion of the credential shapes comes entirely from the schema's `ConflictsWith` and `RequiredWith` lists.
- The choice of authentication mode happens inside client construction. No priority order between the shapes is visible in this code, so none is modelled.

## Model

| member | source | states |
|---|---|---|
| `SchemaValidation.Effective` | apigee/provider.go:46-50 | A setting's effective value is the supplied value when it is set. Otherwise it is the declared default. It is absent only when the setting is unset and has a nil default. |
| `SchemaValidation.FirstSet` | apigee/provider.go:29-35 | Finds the conflicting partner that is reported. It is absent exactly when no listed partner is set. Otherwise it is the first listed partner that is set. |
| `SchemaValidation.FieldDiagnostic` | apigee/provider.go:14-74 | Checks one table entry and yields at most one diagnostic, which names that setting. A missing required setting is reported exactly when the setting is required and has no value. A set setting with an unset RequiredWith partner is reported as such. Otherwise a set ConflictsWith partner is reported, naming the first one set. Otherwise an integer passes the range check exactly when it lies in the range. The exact diagnostic of each provider entry is stated in `UserPasswordEntries`, `AccessTokenEntry`, `OAuthServerEntry` and `OtherEntries`. |
| `SchemaValidation.SchemaDiagnostics` | apigee/provider.go:13-75 | The set of diagnostics is exactly what the individual entries yield, in any visiting order. It is empty exactly when every entry passes. |
| `Provider.ProviderSchema` | apigee/provider.go:13-75 | The table has ten entries, one per setting, with no setting twice. Only organization is required. Every range check is 0..65535 on a setting that defaults to 443. Each of username, password, access_token and oauth_server is either access_token or lists it as a conflict. What each entry yields for any bundle is proved in the four `*Entries` lemmas. |
| `Provider.Resolve` | apigee/provider.go:113-122 | Every supplied value is read unchanged. An unset port or OAuth port reads as 443. An unset server or server path reads as the client package's default. `ResolveAgreesWithSchema` proves that every value equals the table's effective value. |
| `Provider.NoCredentials` | apigee/provider.go:125 | The line-125 test. When it holds, the settings have none of the three credential shapes. |
| `Provider.Classify` | apigee/provider.go:126 | Classifies settings into the three shapes the diagnostic names. A token shape has no username, password or OAuth server. An OAuth shape has username, password and an OAuth server, and no token. A Basic shape has username and password, with no OAuth server and no token. Any shape implies a username or an access token. `AcceptedHasExactlyOneShape` proves every accepted configuration has one. |
| `Provider.Validate` | apigee/provider.go:112-127 | An accepted configuration carries the defaulted settings, and they contain some credential. A schema rejection carries at least one diagnostic. A rejection for missing credentials happens only when username, password and access token are all empty. The complete accept condition is proved in `AcceptedExactly`. |
| `Provider.Configure` | apigee/provider.go:129-134 | A client results exactly when validation accepts and construction succeeds on the accepted settings, and it is the constructed client. A construction error on accepted settings becomes the failure. A rejected configuration fails with the rejection reason. |
| `CredentialProperties.UserPasswordEntries` | apigee/provider.go:14-28 | The username entry reports a missing password when a username is set without one. Otherwise it reports a conflict when an access token is also set. The password entry is the mirror image. |
| `CredentialProperties.AccessTokenEntry` | apigee/provider.go:29-35 | The access_token entry reports a conflict with the first of username, password and oauth_server that is set, and nothing when none is set. |
| `CredentialProperties.OAuthServerEntry` | apigee/provider.go:52-58 | The oauth_server entry reports missing username/password unless both are set. Otherwise it reports a conflict when an access token is set. |
| `CredentialProperties.OtherEntries` | apigee/provider.go:36-74 | Among the remaining entries, only a supplied port outside 0..65535 or a missing organization is reported. The server, server_path and oauth_server_path entries never are. |
| `CredentialProperties.SchemaAcceptsExactly` | apigee/provider.go:13-75 | The table-driven check reports nothing exactly when the bundle meets the pairing rules, both port ranges and the organization requirement. |
| `CredentialProperties.AcceptedExactly` | apigee/provider.go:14-127 | Validation accepts exactly the bundles that meet every schema rule and set at least one of username, password and access token. |
| `CredentialProperties.CredentialCheckRedundant` | apigee/provider.go:124-127 | Under the pairing rules, "username, password and access token all empty" is equivalent to "username and access token empty". So validation accepts exactly the schema-valid bundles with a username or an access token. |
| `CredentialProperties.AcceptedHasExactlyOneShape` | apigee/provider.go:18-57 | An accepted configuration has exactly one shape: a lone access token, or username plus password without a token. Its classification is Token exactly when a token is set, OAuth exactly when an OAuth server is set, and Basic otherwise. |
| `CredentialProperties.NoCredentialsRejected` | apigee/provider.go:125-127 | With no username, password or access token, the configuration is rejected. When the schema otherwise holds, the rejection is the "must specify either ..." diagnostic. |
| `CredentialProperties.AccessTokenConflictRejected` | apigee/provider.go:29-35 | An access token together with a username, password or OAuth server is rejected. The errors include the access_token conflict with the first such partner. |
| `CredentialProperties.UnpairedCredentialRejected` | apigee/provider.go:14-28 | A username without a password, or a password without a username, is rejected with the matching RequiredWith diagnostic. |
| `CredentialProperties.OAuthServerWithoutCredentialsRejected` | apigee/provider.go:52-58 | An OAuth server without both a username and a password is rejected with the oauth_server RequiredWith diagnostic. |
| `CredentialProperties.PortOutOfRangeRejected` | apigee/provider.go:46-68 | A port or OAuth port outside 0..65535 is rejected with a range diagnostic that carries the offending value. |
| `CredentialProperties.UnsetPortsDefault` | apigee/provider.go:46-69 | An unset port or OAuth port becomes 443, which lies in 0..65535, and no diagnostic names it. |
| `CredentialProperties.OrganizationRequired` | apigee/provider.go:70-74 | A bundle without an organization is rejected, and the errors include the missing-required diagnostic for organization. |
| `CredentialProperties.ResolveAgreesWithSchema` | apigee/provider.go:113-122 | Each of the ten values read for configuration equals that setting's effective value under the table: supplied, else default, else the empty string. |
| `CredentialProperties.RejectedNeverConstructs` | apigee/provider.go:125-133 | For a rejected bundle, the outcome is the same whatever the client constructor does, and it is a rejection. So no construction happens before validation succeeds. |

## Left out

- The resource and data-source registrations (`ResourcesMap`, `DataSourcesMap`, apigee/provider.go:76-107) are not modelled. They only map names to constructors in code that is not part of this model.
- Reading environment variables is not modelled. The bundle holds values with the environment already applied.
- The values of the client package defaults for `server` and `server_path` are not part of this model. They are the parameter `ClientConstants`.
- Framework plumbing is not modelled: the provider object, `ResourceData.Get`, the diagnostic types and the context. Diagnostics are plain datatypes, and `SchemaDiag` carries the information of each framework message.
- An explicitly written empty string is treated as unset, as for the environment-resolved settings. The framework instead counts any written value, even `""`, as present. So three cases come out differently from the provider:
  - `server = ""` or `server_path = ""` is read as `""` by the configure step and passed on. `Resolve` passes the client default instead.
  - `organization = ""` satisfies `Required` in the framework. The model rejects it with `MissingRequired`.
  - `access_token = "T"` with `username = ""` draws access_token's ConflictsWith error in the framework. The model accepts it.
- Other framework details are not modelled. Values that are unknown at plan time are not modelled. The framework's RequiredWith and ConflictsWith checks read only what the configuration writes, not environment defaults. The model checks them on the bundle, with the environment values already folded in.
- Client construction (`client.NewClient`) and everything behind it are not part of this model: choosing the authentication mode, OAuth grant and refresh, token caching and its locking, and HTTP. Construction is a function parameter that returns a client or an error message.
- The `Sensitive` flags (apigee/provider.go:24, 32) are not modelled. They only affect how values are displayed.
