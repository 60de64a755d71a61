/** The behaviour the request's tests fix, stated over the model: a server
    with default scope `read` and optional scopes `read write delete`, and an
    application allowed `read write`. */
module RequestScenarios {
  import opened Wrappers
  import opened Scopes
  import opened UserCode
  import opened Configuration
  import opened DeviceGrants
  import opened DeviceAuthorization

  function TestServer(): Server {
    Server(["read"], ["read", "write", "delete"])
  }

  function TestApplication(): Application {
    Application(1, ["read", "write"])
  }

  function TestRequest(scope: Option<string>): Request {
    Request(TestServer(), Some(TestApplication()), "https://example.com", scope)
  }

  /** A valid request on an empty store creates one grant and answers with a
      device authorization response. */
  lemma CreatesOneGrant(now: nat, cfg: Config, draw: nat)
    ensures var o := Authorize(EmptyStore(), now, cfg, TestRequest(None), draw);
            Count(EmptyStore()) == 0 && Count(o.store) == 1
            && o.response.DeviceAuthorizationResponse?
  {
  }

  /** Without a client the request is invalid with `invalid_client` and is
      answered with an error response. */
  lemma RequiresClient(s: Store, now: nat, cfg: Config, draw: nat)
    ensures var req := TestRequest(None).(client := None);
            !IsValid(req) && Validate(req).error == InvalidClient
            && Authorize(s, now, cfg, req, draw).response == ErrorResponse(InvalidClient)
  {
  }

  /** Of two grants of the application, one created 611 s ago and one just
      created, both living 60 s: a request without a client deletes neither,
      and a valid request then deletes the old one and keeps the new one. */
  lemma {:induction false} RemovesExpiredOnlyWhenValid(now: nat, cfg: Config, draw: nat)
    requires now >= 611
    ensures
      var app := TestApplication();
      var c1 := Create(EmptyStore(), app.id, "foo", [], now - 611, 60);
      var c2 := Create(c1.store, app.id, "bar", [], now, 60);
      var invalid := Authorize(c2.store, now, cfg, TestRequest(None).(client := None), draw);
      var valid := Authorize(invalid.store, now, cfg, TestRequest(None), draw);
      && FindById(invalid.store.grants, c1.grant.id).Some?
      && FindById(invalid.store.grants, c2.grant.id).Some?
      && FindById(valid.store.grants, c1.grant.id).None?
      && FindById(valid.store.grants, c2.grant.id).Some?
  {
    var app := TestApplication();
    var c1 := Create(EmptyStore(), app.id, "foo", [], now - 611, 60);
    var c2 := Create(c1.store, app.id, "bar", [], now, 60);
    var invalidReq := TestRequest(None).(client := None);
    var invalid := Authorize(c2.store, now, cfg, invalidReq, draw);
    AuthorizeFindById(c2.store, now, cfg, invalidReq, draw, c1.grant);
    AuthorizeFindById(c2.store, now, cfg, invalidReq, draw, c2.grant);
    AuthorizeFindById(invalid.store, now, cfg, TestRequest(None), draw, c1.grant);
    AuthorizeFindById(invalid.store, now, cfg, TestRequest(None), draw, c2.grant);
  }

  /** The grant created on an empty store, as `DeviceGrant.first` sees it. */
  function FirstGrant(cfg: Config, req: Request, now: nat, draw: nat): Option<Grant> {
    First(Authorize(EmptyStore(), now, cfg, req, draw).store)
  }

  /** The new grant belongs to the client's application. */
  lemma AssignsApplication(now: nat, cfg: Config, draw: nat)
    ensures var g := FirstGrant(cfg, TestRequest(None), now, draw);
            g.Some? && g.value.applicationId == TestApplication().id
  {
  }

  /** Unconfigured, the new grant lives 300 s; configured to 10 minutes, 600 s. */
  lemma AssignsConfiguredExpiresIn(now: nat, draw: nat)
    ensures var g := FirstGrant(DefaultConfig(), TestRequest(None), now, draw);
            g.Some? && g.value.expiresIn == 300
    ensures var cfg := Configure(Options(Some(Minutes(10)), None));
            var g := FirstGrant(cfg, TestRequest(None), now, draw);
            g.Some? && g.value.expiresIn == 600
  {
  }

  /** Without a scope parameter the grant gets the default scopes `read`. */
  lemma AssignsDefaultScopes(now: nat, cfg: Config, draw: nat)
    ensures var g := FirstGrant(cfg, TestRequest(None), now, draw);
            g.Some? && ScopeString(g.value.scopes) == "read"
  {
  }

  lemma ReadWriteScopeString()
    ensures ScopeString(["read", "write"]) == "read write"
  {
    var xs: seq<Scope> := ["read", "write"];
    assert ScopeString(xs[1..]) == "write";
  }

  lemma WordsOfReadWrite(s: string)
    requires s == ScopeString(["read", "write"])
    ensures Words(s) == ["read", "write"]
  {
    WordsOfScopeString(["read", "write"]);
  }

  /** Asking for `read write`, both allowed, gets exactly `read write`. */
  lemma AssignsRequestedScopes(now: nat, cfg: Config, draw: nat)
    ensures var g := FirstGrant(cfg, TestRequest(Some("read write")), now, draw);
            g.Some? && ScopeString(g.value.scopes) == "read write"
  {
    ReadWriteScopeString();
    WordsOfReadWrite("read write");
    var req := TestRequest(Some("read write"));
    assert ResolveScopes(req) == ["read", "write"];
    assert IsValid(req);
  }

  /** `delete` is known to the server but not allowed to the application:
      the request is invalid with `InvalidScope`. */
  lemma RejectsScopeTheApplicationLacks(s: Store, now: nat, cfg: Config, draw: nat)
    ensures var req := TestRequest(Some("delete"));
            !IsValid(req) && Validate(req).error == InvalidScope
            && Authorize(s, now, cfg, req, draw).response == ErrorResponse(InvalidScope)
            && Authorize(s, now, cfg, req, draw).store == s
  {
    var req := TestRequest(Some("delete"));
    WordsOfScopeString(["delete"]);
    assert ResolveScopes(req) == ["delete"];
    assert !Permitted(TestServer(), TestApplication(), "delete");
  }

  /** The user code comes from the configured generator: the default one
      yields `^[A-Z\d]{8}$`, a fixed one yields its fixed code. */
  lemma AssignsGeneratedUserCode(now: nat, draw: nat)
    ensures var g := FirstGrant(DefaultConfig(), TestRequest(None), now, draw);
            g.Some? && IsDefaultFormat(g.value.userCode)
    ensures var cfg := Configure(Options(None, Some(FixedGenerator("foo-bar"))));
            var g := FirstGrant(cfg, TestRequest(None), now, draw);
            g.Some? && g.value.userCode == "foo-bar"
  {
  }
}
