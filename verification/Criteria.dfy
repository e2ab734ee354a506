/**
 * What decides about a request, said of the request, its body and the configuration alone: whose it
 * is, what it calls for and where it goes. Each stage of the pipeline is shown to decide by it.
 */
module Criteria {
  import opened Prelude
  import opened Document
  import opened Collector
  import opened Classify
  import opened Authz
  import opened Auth
  import opened Proxy
  import opened Pipeline

  // --- Whose it is --------------------------------------------------------------------------

  /** Nothing that the configured mode looks at came with the request, and anonymous readers are let in. */
  ghost predicate IsAnonymous(cfg: Config, request: HttpRequest, p: Principal)
  {
    && cfg.allowAnonymousRead && p == Principal("anonymous", {"read"})
    && if cfg.authenticator.Mtls? then request.clientCert.None? else forall t :: !Presents(request.headers, t)
  }

  /** The request is this principal's. */
  ghost predicate IdentifiedAs(cfg: Config, request: HttpRequest, p: Principal)
  {
    || IsAnonymous(cfg, request, p)
    || match cfg.authenticator
       case Bearer(tokens) => exists t :: Presents(request.headers, t) && TokenNames(tokens, t, p)
       case Jwt(keys, decode) => exists t :: Presents(request.headers, t) && KeyNames(keys, decode, t, p)
       case Mtls(mappings) => request.clientCert.Some? && MappingNames(mappings, request.clientCert.value, p)
  }

  lemma IdentifiedMeans(cfg: Config, request: HttpRequest, p: Principal)
    ensures AuthenticateRequest(cfg, request) == Ok(p) <==> IdentifiedAs(cfg, request, p)
  {
    var creds := Credentials(ExtractBearer(request.headers), request.clientCert);
    AuthenticateMeans(cfg.authenticator, creds, cfg.allowAnonymousRead, p);
    forall t
      ensures creds.bearer == Some(t) <==> Presents(request.headers, t)
    {
      BearerMeans(request.headers, t);
    }
    BearerMeans(request.headers, "");
  }

  /** A request is nobody's exactly when it is refused. */
  lemma UnidentifiedMeans(cfg: Config, request: HttpRequest)
    ensures AuthenticateRequest(cfg, request).Err? <==> forall p :: !IdentifiedAs(cfg, request, p)
  {
    forall p
      ensures AuthenticateRequest(cfg, request) == Ok(p) <==> IdentifiedAs(cfg, request, p)
    {
      IdentifiedMeans(cfg, request, p);
    }
  }

  // --- What it calls for -----------------------------------------------------------------------

  /** The body holds requests, each with operations. */
  ghost predicate Classifiable(payload: Payload)
  {
    (exists r :: Carries(payload, r)) && forall r :: Carries(payload, r) ==> Usable(r)
  }

  /** The body decides: the request is no GET and no admin call, and the body can be classified. */
  ghost predicate Judged(request: HttpRequest, payload: Payload)
  {
    request.verb != "GET" && !UnderSegment(request.path, "/_admin") && Classifiable(payload)
  }

  ghost predicate Admissible(cfg: Config, request: HttpRequest, payload: Payload)
  {
    request.verb == "GET" || UnderSegment(request.path, "/_admin") || Classifiable(payload) || !cfg.failClosed
  }

  ghost predicate IsWrite(request: HttpRequest, payload: Payload)
  {
    || (request.verb != "GET" && UnderSegment(request.path, "/_admin"))
    || (Judged(request, payload) && exists r, o :: Carries(payload, r) && Selected(r, o) && o.kind == Mutation)
  }

  /** An override about an operation that may run asks for the scope. */
  ghost predicate OverrideDemands(overrides: seq<Override>, payload: Payload, s: string)
  {
    exists r, o, ov ::
      && Carries(payload, r) && Selected(r, o)
      && ov in overrides && IsAbout(ov, o.name, CollectTopFields(o.items, r.query.value.fragments))
      && s in ov.requireScopes
  }

  /** The request calls for the scope. */
  ghost predicate Demanded(cfg: Config, request: HttpRequest, payload: Payload, s: string)
  {
    || s == (if IsWrite(request, payload) then "write" else "read")
    || (Judged(request, payload) && OverrideDemands(cfg.overrides, payload, s))
  }

  /** The principal holds everything the request calls for. */
  ghost predicate Covered(cfg: Config, request: HttpRequest, payload: Payload, p: Principal)
  {
    forall s :: Demanded(cfg, request, payload, s) ==> Holds(p, s)
  }

  lemma OverridesMean(payload: Payload, overrides: seq<Override>, s: string)
    requires ClassifyPayload(payload).Ok?
    ensures OverrideDemands(overrides, payload, s) <==>
            exists op, ov :: op in ClassifyPayload(payload).value.operations && ov in overrides
                             && IsAbout(ov, op.name, op.topLevelFields) && s in ov.requireScopes
  {
    var operations := ClassifyPayload(payload).value.operations;
    ClassificationMeans(payload);
    if OverrideDemands(overrides, payload, s) {
      var r, o, ov :|
        && Carries(payload, r) && Selected(r, o)
        && ov in overrides && IsAbout(ov, o.name, CollectTopFields(o.items, r.query.value.fragments))
        && s in ov.requireScopes;
      var info := Describe(o, r.query.value.fragments);
      assert Describes(info, r, o);
      assert info in operations && IsAbout(ov, info.name, info.topLevelFields);
    }
    forall op, ov | op in operations && ov in overrides && IsAbout(ov, op.name, op.topLevelFields)
                    && s in ov.requireScopes
      ensures OverrideDemands(overrides, payload, s)
    {
      var r, o :| Carries(payload, r) && Selected(r, o) && Describes(op, r, o);
    }
  }

  /** Classification lets through what is admissible, and finds whether it is a write and what it calls for. */
  lemma DemandMeans(cfg: Config, request: HttpRequest, payload: Payload, s: string)
    ensures ClassifyFor(cfg, request, payload).Ok? <==> Admissible(cfg, request, payload)
    ensures ClassifyFor(cfg, request, payload).Ok? ==>
              var c := ClassifyFor(cfg, request, payload).value;
              && (c.scope == Write <==> IsWrite(request, payload))
              && (CallsFor(c, cfg.overrides, s) <==> Demanded(cfg, request, payload, s))
  {
    RouteMeans(request.path);
    ClassificationMeans(payload);
    if Judged(request, payload) {
      OverridesMean(payload, cfg.overrides, s);
    }
  }

  /** Authorization grants exactly what is covered, and otherwise names what is demanded and not held. */
  lemma CoverMeans(cfg: Config, request: HttpRequest, payload: Payload, p: Principal)
    requires ClassifyFor(cfg, request, payload).Ok?
    ensures var d := Decide(p, ClassifyFor(cfg, request, payload).value, cfg.overrides);
            && (d.Granted? <==> Covered(cfg, request, payload, p))
            && (d.Denied? ==>
                  forall s :: s in d.missing <==> Demanded(cfg, request, payload, s) && !Holds(p, s))
  {
    var c := ClassifyFor(cfg, request, payload).value;
    GrantMeans(p, c, cfg.overrides);
    forall s
      ensures CallsFor(c, cfg.overrides, s) <==> Demanded(cfg, request, payload, s)
    {
      DemandMeans(cfg, request, payload, s);
    }
  }

  // --- Where it goes -----------------------------------------------------------------------------

  /** The upstream of this path is configured. */
  ghost predicate Configured(cfg: Config, path: string)
  {
    && (UnderSegment(path, "/_admin") ==> cfg.graphNodeAdmin.Some?)
    && (UnderSegment(path, "/_status") ==> cfg.graphNodeStatus.Some?)
  }

  /** A request for this path goes to this URL. */
  ghost predicate GoesTo(cfg: Config, path: string, url: string)
  {
    if UnderSegment(path, "/_admin") then
      cfg.graphNodeAdmin.Some? && |path| >= 7
      && url == cfg.graphNodeAdmin.value + if path == "/_admin" then "/" else path[7..]
    else if UnderSegment(path, "/_status") then
      cfg.graphNodeStatus.Some? && |path| >= 8
      && url == cfg.graphNodeStatus.value + if path == "/_status" then "/" else path[8..]
    else url == cfg.agentManagement + path
  }

  lemma UpstreamMeans(cfg: Config, request: HttpRequest)
    ensures Upstream(cfg, request).Some? <==> Configured(cfg, request.path)
    ensures Upstream(cfg, request).Some? ==>
              GoesTo(cfg, request.path, Upstream(cfg, request).value + RouteOf(request.path).path)
  {
    RouteMeans(request.path);
    PrefixesExclusive(request.path);
  }
}
