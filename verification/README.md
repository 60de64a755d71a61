# Device authorization request — a Dafny model

This project models the device authorization request of the OAuth 2.0 Device
Authorization Grant (section 3.1 of RFC 8628, answered as in section 3.2) as
an extension of the Doorkeeper OAuth provider. A request carries the server
capability (default and optional scopes), the authenticated client's
application (possibly absent), a base URL and an optional `scope` parameter.
Validation checks, in order, that the client is present (`invalid_client`)
and that every requested scope is known to the server and allowed to the
application (`invalid_scope`); with no scope parameter the server's default
scopes are used. Authorizing an invalid request answers with an error
response and changes nothing. Authorizing a valid request deletes the
expired device grants of the client's application, creates exactly one new
device grant (the client's application, the resolved scopes, the configured
`device_code_expires_in`, a user code from the configured generator, created
now) and answers with a device authorization response holding it.

The model is purely functional:

- `wrappers.dfy` — `Option`.
- `scopes.dfy` — the server's scope sets, the scope string (split into scopes
  and joined back with one space, as `to_s` prints it), and the containment
  check.
- `user_code.dfy` — user-code generators. A generator is a function of a
  random draw that the caller passes in; the default generator renders the
  draw as eight upper-case base-36 digits.
- `configuration.dfy` — `device_code_expires_in` (default 300 s) and
  `user_code_generator`; a configuration step replaces every setting, and an
  unmentioned setting takes its default.
- `device_grant.dfy` — the store of device grants as a sequence in id order
  with the next id to hand out (the database's auto-increment key), creation,
  lookup by id, `first`, the expiry predicate `created_at + expires_in <= now`
  and the deletion of one application's expired grants.
- `device_authorization_request.dfy` — `Validate` and `Authorize`.
- `request_scenarios.dfy` — the behaviour the request's test cases fix,
  restated as lemmas about the model.

Time (`now`), the random draw behind user codes and the store are explicit
parameters; nothing reads a clock or a random source.

The missing-client test expects the symbol `:invalid_client` (test line
75) and the scope test expects the class `Doorkeeper::Errors::InvalidScope`
(test line 158); both are constructors of one `Error` datatype here. The tests fix only two
points of the expiry predicate (611 s old with a 60 s lifetime is expired; a
fresh grant with a 60 s lifetime is not); the boundary `now == created_at +
expires_in` counting as expired is a modelling choice. That reaping leaves
other applications' grants alone is also a modelling choice: no test
exercises it. The source of the default user-code generator is not part of
this model; its base-36 rendering is a choice that meets the tested format
`^[A-Z\d]{8}$`, and `DefaultGeneratorRange` proves that its outputs are
exactly the strings of eight characters from `[A-Z\d]`. That whole-string
format (`\A[A-Z\d]{8}\z`) is stronger than the tested pattern, whose Ruby
anchors `^` and `$` match at line boundaries, and every string of it matches
the tested pattern.

## Model

| member | source | states |
|---|---|---|
| Scopes.ServerScopes | test/lib/oauth/device_authorization_request_test.rb:19-21 | the server knows a scope exactly when it is one of its default or optional scopes |
| Scopes.Words | test/lib/oauth/device_authorization_request_test.rb:135-145 | a scope parameter splits into non-empty scopes without separators, in order; it has no scopes exactly when it is blank, and the scopes written one after the other are the parameter with its separators removed |
| Scopes.ScopeString | test/lib/oauth/device_authorization_request_test.rb:132-144 | `scopes.to_s`: for well-formed scopes, the string with its separators removed is the scopes written one after the other, and it is blank exactly when there are no scopes |
| Scopes.WordsOfScopeString | test/lib/oauth/device_authorization_request_test.rb:140-144 | splitting the space-joined string of well-formed scopes gives back the same scopes in the same order, so `read write` is stored and printed as `read write` |
| Scopes.FirstMissing | test/lib/oauth/device_authorization_request_test.rb:147-160 | finds no index exactly when every requested scope is allowed; a found index is the first scope that is not |
| Scopes.HasScopes | test/lib/oauth/device_authorization_request_test.rb:147-160 | true exactly when every requested scope is among the allowed ones |
| UserCode.DefaultGenerator | test/lib/oauth/device_authorization_request_test.rb:162-167 | every code of the default generator has eight characters from A-Z and 0-9 |
| UserCode.ToBase36OfFromBase36 | test/lib/oauth/device_authorization_request_test.rb:166 | rendering the value of a digit string at its own width gives the string back |
| UserCode.DefaultGeneratorRange | test/lib/oauth/device_authorization_request_test.rb:162-167 | a string is eight characters from `[A-Z\d]` (the whole-string form `\A[A-Z\d]{8}\z`, stronger than the tested `^[A-Z\d]{8}$`) exactly when some draw below 36^8 makes the default generator produce it |
| UserCode.FixedGenerator | test/lib/oauth/device_authorization_request_test.rb:169-183 | the fake generator answers `foo-bar` whatever the draw |
| Configuration.DefaultConfig | test/lib/oauth/device_authorization_request_test.rb:113-117 | unconfigured, grants live 300 s and user codes have the default format |
| Configuration.Minutes | test/lib/oauth/device_authorization_request_test.rb:121 | `10.minutes` is a whole number of minutes, 600 s |
| Configuration.Configure | test/lib/oauth/device_authorization_request_test.rb:119-127 | each setting a configuration step names is taken as given; each it leaves out reverts to its default |
| Configuration.RestoreConfiguration | test/lib/oauth/device_authorization_request_test.rb:46-59 | configuring with every saved setting restores the saved configuration |
| DeviceGrants.EmptyStore | test/lib/oauth/device_authorization_request_test.rb:61-62 | the store before any test step holds no grant and is well formed |
| DeviceGrants.Count | test/lib/oauth/device_authorization_request_test.rb:62 | `DeviceGrant.count` is zero exactly when no id finds a grant |
| DeviceGrants.Expired | test/lib/oauth/device_authorization_request_test.rb:80-103 | a grant is expired exactly when its age has reached its lifetime, so a grant created now with a positive lifetime is not; counting the instant the age equals the lifetime as expired is a modelling choice, since the tests fix only a 611 s old and a fresh grant with a 60 s lifetime |
| DeviceGrants.FindById | test/lib/oauth/device_authorization_request_test.rb:96-103 | `find_by(id:)` finds nothing exactly when no stored grant has that id, and otherwise a stored grant with that id |
| DeviceGrants.FindByIdOfMember | test/lib/oauth/device_authorization_request_test.rb:96-103 | in a well-formed store every stored grant is the one found by its id |
| DeviceGrants.First | test/lib/oauth/device_authorization_request_test.rb:106-110 | `DeviceGrant.first` is absent exactly for an empty store and otherwise the stored grant with the smallest id |
| DeviceGrants.Create | test/lib/oauth/device_authorization_request_test.rb:80-91 | a created grant has the given application, user code, scopes, creation time and lifetime, a fresh id, adds one to the count and keeps every stored grant |
| DeviceGrants.KeepUnreapable | test/lib/oauth/device_authorization_request_test.rb:99-103 | keeps exactly the grants that are not expired grants of the application, in id order, and drops as many as are reapable |
| DeviceGrants.DeleteExpiredFor | test/lib/oauth/device_authorization_request_test.rb:99-103 | after deletion a grant is stored exactly when it was stored and is not an expired grant of the application; the count drops by the number of such grants; well-formedness is kept |
| DeviceGrants.DeleteExpiredForIdempotent | test/lib/oauth/device_authorization_request_test.rb:99-103 | deleting the expired grants a second time at the same moment removes nothing more |
| DeviceAuthorization.ResolveScopes | test/lib/oauth/device_authorization_request_test.rb:129-145 | with no scope parameter, or a blank one, the server's default scopes are used; otherwise the non-empty list of scopes the parameter splits into |
| DeviceAuthorization.Validate | test/lib/oauth/device_authorization_request_test.rb:71-77 | fails with `invalid_client` exactly when the client is absent, with `invalid_scope` exactly when a client is present and some resolved scope is unknown to the server or not allowed to the application, and passes otherwise |
| DeviceAuthorization.IsValid | test/lib/oauth/device_authorization_request_test.rb:71-77 | `valid?` holds exactly when a client is present and every resolved scope is known to the server and allowed to the application; when it fails, validation reports an error |
| DeviceAuthorization.Authorize | test/lib/oauth/device_authorization_request_test.rb:61-127 | answers with a device authorization response exactly when the request is valid; an invalid request gets the error response of its error and leaves the store unchanged; a valid one stores exactly one new grant (client's application, resolved scopes, configured lifetime, generated user code, created now, fresh id) and deletes exactly the application's expired grants; well-formedness is kept |
| DeviceAuthorization.AuthorizeFindById | test/lib/oauth/device_authorization_request_test.rb:79-104 | after authorizing, a stored grant is still found by its id exactly when the request was invalid or the grant is not an expired grant of the client's application |
| RequestScenarios.CreatesOneGrant | test/lib/oauth/device_authorization_request_test.rb:61-69 | a valid request on an empty store takes the count from 0 to 1 and answers with a device authorization response |
| RequestScenarios.RequiresClient | test/lib/oauth/device_authorization_request_test.rb:71-77 | without a client the request is invalid with `invalid_client` and answered with an error response |
| RequestScenarios.RemovesExpiredOnlyWhenValid | test/lib/oauth/device_authorization_request_test.rb:79-104 | a request without a client keeps both the 611 s old and the fresh 60 s grant; a valid request then deletes the old one and keeps the fresh one |
| RequestScenarios.AssignsApplication | test/lib/oauth/device_authorization_request_test.rb:106-111 | the new grant belongs to the client's application |
| RequestScenarios.AssignsConfiguredExpiresIn | test/lib/oauth/device_authorization_request_test.rb:113-127 | the new grant lives 300 s unconfigured and 600 s after configuring 10 minutes |
| RequestScenarios.AssignsDefaultScopes | test/lib/oauth/device_authorization_request_test.rb:129-133 | without a scope parameter the new grant's scopes print as `read` |
| RequestScenarios.AssignsRequestedScopes | test/lib/oauth/device_authorization_request_test.rb:135-145 | asking for `read write` gives a grant whose scopes print as `read write` |
| RequestScenarios.RejectsScopeTheApplicationLacks | test/lib/oauth/device_authorization_request_test.rb:147-160 | asking for `delete` makes the request invalid with `InvalidScope`, answered with an error response, store unchanged |
| RequestScenarios.AssignsGeneratedUserCode | test/lib/oauth/device_authorization_request_test.rb:162-183 | the default generator gives a user code of the format `^[A-Z\d]{8}$`; the fake generator gives `foo-bar` |

## Left out

- The device code: no test exercises it; a grant here has no device code.
- The verification URI and the "complete" verification URI of the response: the base URL is carried by the request but the URIs are not built, and no test inspects them.
- Serialisation of responses to JSON or HTML.
- Regeneration of a user code that collides with a live grant's code, and the database's uniqueness constraints: no test exercises either; a fixed generator such as `foo-bar` simply yields the same code every time.
- ActiveRecord persistence: the store is an in-memory sequence; `find_by` is modelled only by id.
- Randomness of the default generator: the random draw is a parameter.
- The clock: `now` and `created_at` are natural numbers of seconds passed in.
- Doorkeeper's configuration DSL and global state, including `enforce_configured_scopes`: configuration is an explicit value, and validation always checks the server's scopes.
- Scopes.Words: splits on the space character only, not on tabs or newlines, and does not remove duplicate scopes.
- DeviceAuthorization.Validate: an application with no scopes at all is treated as allowing none; no test exercises an application without scopes.
- Concurrency between requests, and the token-polling endpoint.
