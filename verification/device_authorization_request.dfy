/** The device authorization request (section 3.1 of RFC 8628) and its
    answer (section 3.2): validation of the client and the requested scopes,
    then, only for a valid request, reaping of the application's expired
    grants and creation of one new grant. */
module DeviceAuthorization {
  import opened Wrappers
  import opened Scopes
  import opened UserCode
  import opened Configuration
  import opened DeviceGrants

  /** A registered application and the scopes it may be granted. */
  datatype Application = Application(id: nat, scopes: seq<Scope>)

  /** The request: the server capability, the authenticated client's
      application (absent when there is no client), the base URL the
      verification URI is built from, and the optional `scope` parameter. */
  datatype Request = Request(
    server: Server,
    client: Option<Application>,
    host: string,
    scope: Option<string>)

  /** The error kinds a request can fail with. */
  datatype Error = InvalidClient | InvalidScope

  /** The verdict of validation: the first failing check, if any. */
  datatype Validation = Pass | Fail(error: Error)

  /** The answer of `Authorize`: a device authorization response carrying
      the new grant, or an error response carrying the error kind. */
  datatype Response = DeviceAuthorizationResponse(grant: Grant) | ErrorResponse(error: Error)

  /** The answer together with the store it leaves behind. */
  datatype Outcome = Outcome(store: Store, response: Response)

  /** The scopes a request asks for: those of its `scope` parameter, or the
      server's default scopes when the parameter is absent or blank. */
  function ResolveScopes(req: Request): (r: seq<Scope>)
    ensures req.scope.None? ==> r == req.server.defaultScopes
    ensures req.scope.Some? && IsBlank(req.scope.value) ==> r == req.server.defaultScopes
    ensures req.scope.Some? && !IsBlank(req.scope.value) ==>
            r == Words(req.scope.value) && |r| > 0
  {
    var requested := Words(req.scope.GetOr(""));
    if |requested| == 0 then req.server.defaultScopes else requested
  }

  /** Whether `scope` may be granted to `app` by `server`. */
  predicate Permitted(server: Server, app: Application, scope: Scope) {
    scope in ServerScopes(server) && scope in app.scopes
  }

  /** Runs the checks in order: the client must be present, then every
      resolved scope must be known to the server and allowed to the
      application. */
  function Validate(req: Request): (v: Validation)
    ensures v == Fail(InvalidClient) <==> req.client.None?
    ensures v == Fail(InvalidScope) <==>
            req.client.Some? && exists s :: s in ResolveScopes(req) && !Permitted(req.server, req.client.value, s)
    ensures v == Pass <==>
            req.client.Some? && forall s :: s in ResolveScopes(req) ==> Permitted(req.server, req.client.value, s)
  {
    if req.client.None? then Fail(InvalidClient)
    else
      var scopes := ResolveScopes(req);
      if !HasScopes(ServerScopes(req.server), scopes) || !HasScopes(req.client.value.scopes, scopes)
      then Fail(InvalidScope)
      else Pass
  }

  /** `valid?` of the request: a client is present and every resolved scope
      may be granted to it. */
  function IsValid(req: Request): (b: bool)
    ensures b <==> req.client.Some? &&
                   forall s :: s in ResolveScopes(req) ==> Permitted(req.server, req.client.value, s)
    ensures !b ==> Validate(req).Fail?
  {
    Validate(req).Pass?
  }

  /** Answers the request. An invalid request gets an error response and the
      store is left as it was. A valid one first deletes the expired grants
      of the client's application, then creates one grant for that
      application with the resolved scopes, the configured lifetime and the
      configured generator's code for `draw`, and answers with that grant. */
  function Authorize(s: Store, now: nat, cfg: Config, req: Request, draw: nat): (o: Outcome)
    ensures o.response.DeviceAuthorizationResponse? <==> IsValid(req)
    ensures !IsValid(req) ==> o.response == ErrorResponse(Validate(req).error) && o.store == s
    ensures IsValid(req) ==>
      var app := req.client.value;
      var g := o.response.grant;
      && g.applicationId == app.id
      && g.scopes == ResolveScopes(req)
      && g.expiresIn == cfg.deviceCodeExpiresIn
      && g.userCode == cfg.userCodeGenerator(draw)
      && g.createdAt == now
      && (forall h :: h in o.store.grants <==> h == g || (h in s.grants && !Reapable(h, app.id, now)))
      && Count(o.store) == Count(s) - CountReapable(s.grants, app.id, now) + 1
      && (Wf(s) ==> FindById(s.grants, g.id).None?)
    ensures Wf(s) ==> Wf(o.store)
  {
    match Validate(req)
    case Fail(e) => Outcome(s, ErrorResponse(e))
    case Pass =>
      var app := req.client.value;
      var reaped := DeleteExpiredFor(s, app.id, now);
      var created := Create(reaped, app.id, cfg.userCodeGenerator(draw), ResolveScopes(req),
                            now, cfg.deviceCodeExpiresIn);
      assert Wf(s) ==> FindById(s.grants, created.grant.id).None? by {
        if Wf(s) {
          assert forall h :: h in s.grants ==> h.id < s.nextId;
        }
      }
      Outcome(created.store, DeviceAuthorizationResponse(created.grant))
  }

  /** Lookup by id after `Authorize`: a stored grant is still found exactly
      when the request was invalid or the grant is not one of the client
      application's expired grants. */
  lemma AuthorizeFindById(s: Store, now: nat, cfg: Config, req: Request, draw: nat, g: Grant)
    requires Wf(s) && g in s.grants
    ensures var o := Authorize(s, now, cfg, req, draw);
            FindById(o.store.grants, g.id) == Some(g) <==>
            !(IsValid(req) && Reapable(g, req.client.value.id, now))
    ensures var o := Authorize(s, now, cfg, req, draw);
            FindById(o.store.grants, g.id).None? <==>
            IsValid(req) && Reapable(g, req.client.value.id, now)
  {
    var o := Authorize(s, now, cfg, req, draw);
    if g in o.store.grants {
      FindByIdOfMember(o.store, g);
    } else {
      var r := FindById(o.store.grants, g.id);
      if r.Some? {
        var h := r.value;
        if h in s.grants {
          FindByIdOfMember(s, h);
          FindByIdOfMember(s, g);
        }
      }
    }
  }
}
