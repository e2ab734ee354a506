/**
 * Which requests can reach an upstream at all: an exact condition on the request, its body and the
 * configuration, and what it says of bodies that do not classify, of admin calls and of GET.
 */
module Sending {
  import opened Prelude
  import opened Document
  import opened Collector
  import opened Execution
  import opened Classify
  import opened Authz
  import opened AuthzLaws
  import opened Auth
  import opened RateLimit
  import opened Proxy
  import opened Pipeline
  import opened Criteria
  import opened Invariants
  import opened Theorems
  import opened Handler

  ghost predicate SentAt(s: State, i: nat, request: HttpRequest, body: Bytes)
  {
    && i < |s.trace| && s.trace[i].action.Sent? && s.trace[i].action.body == body
    && s.trace[i].id in s.tasks && s.tasks[s.trace[i].id].request == request
  }

  /** Some interleaving sends this request with this body upstream. */
  ghost predicate CanBeSent(cfg: Config, request: HttpRequest, body: Bytes)
  {
    exists s, i :: Reachable(cfg, s) && SentAt(s, i, request, body)
  }

  /** A body may be parsed again: it fails alike, or gets the same decision. */
  lemma ClassifiesAlike(cfg: Config, request: HttpRequest, p: Principal, a: Payload, b: Payload)
    requires Reordered(a, b)
    ensures ClassifyFor(cfg, request, a).Ok? <==> ClassifyFor(cfg, request, b).Ok?
    ensures ClassifyFor(cfg, request, a).Ok? ==>
              Decide(p, ClassifyFor(cfg, request, a).value, cfg.overrides)
              == Decide(p, ClassifyFor(cfg, request, b).value, cfg.overrides)
  {
    ReparsingDecidesTheSame(p, a, b, cfg.overrides);
  }

  lemma {:induction false} ProjectFrom(trace: seq<Entry>, id: nat, action: Action)
    returns (i: nat)
    requires action in Project(trace, id)
    ensures i < |trace| && trace[i] == Entry(id, action)
  {
    var last := |trace| - 1;
    if trace[last] == Entry(id, action) {
      i := last;
    } else {
      i := ProjectFrom(trace[..last], id, action);
    }
  }

  lemma FirstIsAdmitted(cfg: Config, scope: Scope, name: string, now: nat)
    ensures CheckRate(InitialShared(cfg).limits, scope, name, now).admitted
  {
    var check := Check(scope, name, now);
    BurstAdmitted(cfg.readPerMinute, cfg.writePerMinute, check, 1, 0);
    assert Repeated(check, 1)[0] == check;
  }

  /** A cleared request that the limiter admits and no upstream answers. */
  lemma ResolvesToBroken(cfg: Config, request: HttpRequest, ss: Session, limits: Limits, now: nat)
    requires Cleared(cfg, request, ss) && Upstream(cfg, request).Some?
    requires CheckRate(limits, ss.classification.scope, ss.principal.name, now).admitted
    ensures Resolve(cfg, request, Some(ss.body), limits, now, None) == Broken(ss, now)
  {
  }

  lemma BrokenWasSent(cfg: Config, request: HttpRequest, ss: Session, now: nat)
    ensures SendAction(cfg, request, ss) in Script(cfg, request, Broken(ss, now))
    ensures SendAction(cfg, request, ss).Sent? && SendAction(cfg, request, ss).body == ss.body.bytes
  {
    assert Script(cfg, request, Broken(ss, now))[1] == SendAction(cfg, request, ss);
  }

  /** From every reachable state, a new request that is cleared and admitted leads to its send. */
  lemma ClearedIsSentFrom(cfg: Config, s: State, id: nat, request: HttpRequest, ss: Session, now: nat)
    returns (t: State, i: nat)
    requires Reachable(cfg, s) && id !in s.tasks
    requires Cleared(cfg, request, ss) && Upstream(cfg, request).Some?
    requires CheckRate(s.shared.limits, ss.classification.scope, ss.principal.name, now).admitted
    ensures Reachable(cfg, t) && SentAt(t, i, request, ss.body.bytes) && t.trace[i].id == id
  {
    ResolvesToBroken(cfg, request, ss, s.shared.limits, now);
    t := HandlerIsARun(cfg, s, id, request, Some(ss.body), now, None);
    BrokenWasSent(cfg, request, ss, now);
    i := ProjectFrom(t.trace, id, SendAction(cfg, request, ss));
  }

  /** A cleared request, arriving first, is sent. */
  lemma ClearedIsSent(cfg: Config, request: HttpRequest, ss: Session)
    requires Cleared(cfg, request, ss) && Upstream(cfg, request).Some?
    ensures CanBeSent(cfg, request, ss.body.bytes)
  {
    var s := Initial(cfg);
    assert Run(cfg, s, []) == Some(s);
    FirstIsAdmitted(cfg, ss.classification.scope, ss.principal.name, 0);
    var t, i := ClearedIsSentFrom(cfg, s, 0, request, ss, 0);
  }

  lemma SentIffGranted(cfg: Config, request: HttpRequest, body: Bytes)
    ensures CanBeSent(cfg, request, body) <==>
            && AuthenticateRequest(cfg, request).Ok? && |body| <= cfg.bodyLimit && Upstream(cfg, request).Some?
            && ClassifyFor(cfg, request, cfg.parse(body)).Ok?
            && Decide(AuthenticateRequest(cfg, request).value, ClassifyFor(cfg, request, cfg.parse(body)).value,
                      cfg.overrides).Granted?
  {
    var who, c := AuthenticateRequest(cfg, request), ClassifyFor(cfg, request, cfg.parse(body));
    if CanBeSent(cfg, request, body) {
      var s, i :| Reachable(cfg, s) && SentAt(s, i, request, body);
      var ss, now := SendHasSession(cfg, s, i);
      ClassifiesAlike(cfg, request, ss.principal, cfg.parse(body), ss.body.payload);
    }
    if who.Ok? && |body| <= cfg.bodyLimit && Upstream(cfg, request).Some? && c.Ok? {
      if Decide(who.value, c.value, cfg.overrides).Granted? {
        ClearedIsSent(cfg, request, Session(who.value, Received(body, cfg.parse(body)), c.value));
      }
    }
  }

  /** The request is this principal's, its body is within the limit and its upstream is configured. */
  ghost predicate Served(cfg: Config, request: HttpRequest, body: Bytes, p: Principal)
  {
    IdentifiedAs(cfg, request, p) && |body| <= cfg.bodyLimit && Configured(cfg, request.path)
  }

  /**
   * A request can reach an upstream if and only if it is some principal's, its body is within the
   * limit and admissible, the principal holds everything the request calls for, and its upstream
   * is configured.
   */
  lemma SentIffCleared(cfg: Config, request: HttpRequest, body: Bytes)
    ensures CanBeSent(cfg, request, body) <==>
            && Admissible(cfg, request, cfg.parse(body))
            && exists p :: Served(cfg, request, body, p) && Covered(cfg, request, cfg.parse(body), p)
  {
    SentIffGranted(cfg, request, body);
    UpstreamMeans(cfg, request);
    DemandMeans(cfg, request, cfg.parse(body), "");
    forall p
      ensures IdentifiedAs(cfg, request, p) <==> AuthenticateRequest(cfg, request) == Ok(p)
    {
      IdentifiedMeans(cfg, request, p);
    }
    if AuthenticateRequest(cfg, request).Ok? && ClassifyFor(cfg, request, cfg.parse(body)).Ok? {
      CoverMeans(cfg, request, cfg.parse(body), AuthenticateRequest(cfg, request).value);
    }
  }

  // --- Bodies that are classified ----------------------------------------------------------

  /**
   * A classified body, by no GET and no admin call, is sent if and only if it is served for a
   * principal that holds `read`, `write` if an operation that may run is a mutation, and what the
   * overrides ask for the operations that may run.
   */
  lemma ClassifiedSentIff(cfg: Config, request: HttpRequest, body: Bytes)
    requires request.verb != "GET" && !UnderSegment(request.path, "/_admin") && Classifiable(cfg.parse(body))
    ensures CanBeSent(cfg, request, body) <==>
            exists p ::
              && Served(cfg, request, body, p) && Holds(p, "read")
              && ((exists r, o :: Carries(cfg.parse(body), r) && Selected(r, o) && o.kind == Mutation) ==>
                    Holds(p, "write"))
              && forall s :: OverrideDemands(cfg.overrides, cfg.parse(body), s) ==> Holds(p, s)
  {
    SentIffCleared(cfg, request, body);
    var payload := cfg.parse(body);
    forall p
      ensures Covered(cfg, request, payload, p) <==>
              && Holds(p, "read") && (IsWrite(request, payload) ==> Holds(p, "write"))
              && forall s :: OverrideDemands(cfg.overrides, payload, s) ==> Holds(p, s)
    {
      assert Demanded(cfg, request, payload, if IsWrite(request, payload) then "write" else "read");
      assert forall s :: OverrideDemands(cfg.overrides, payload, s) ==> Demanded(cfg, request, payload, s);
    }
  }

  /**
   * A POSTed query selected by name is sent for a reader that holds what the overrides about it
   * ask, whatever other operations its document has.
   */
  lemma SelectedQueryIsSent(
    cfg: Config, request: HttpRequest, body: Bytes, p: Principal, r: Request, q: Operation)
    requires request.verb == "POST" && !UnderSegment(request.path, "/_admin") && Served(cfg, request, body, p)
    requires cfg.parse(body) == Single(r) && r.query.Ok? && q in r.query.value.operations && q.kind == Query
    requires q.name.Some? && r.operationName == q.name
    requires forall o :: o in r.query.value.operations && o.name == q.name ==> o == q
    requires Holds(p, "read")
    requires forall ov, s ::
               (ov in cfg.overrides && IsAbout(ov, q.name, CollectTopFields(q.items, r.query.value.fragments))
                && s in ov.requireScopes)
               ==> Holds(p, s)
    ensures CanBeSent(cfg, request, body)
  {
    var payload := cfg.parse(body);
    assert Carries(payload, r) && Usable(r) && forall x :: Carries(payload, x) ==> x == r;
    assert forall o :: Selected(r, o) ==> o == q;
    ClassifiedSentIff(cfg, request, body);
  }

  // --- Where classification says nothing about the body ------------------------------------

  /** Where the body does not decide, the base scope alone does. */
  lemma BaseScopeDecides(cfg: Config, request: HttpRequest, payload: Payload, p: Principal)
    requires !Judged(request, payload)
    ensures Covered(cfg, request, payload, p) <==>
            Holds(p, if request.verb != "GET" && UnderSegment(request.path, "/_admin") then "write" else "read")
  {
    assert Demanded(cfg, request, payload, if IsWrite(request, payload) then "write" else "read");
  }

  /** The exact condition for a body that cannot be classified to be sent all the same. */
  lemma UnclassifiableSentIff(cfg: Config, request: HttpRequest, body: Bytes)
    requires !Classifiable(cfg.parse(body))
    ensures var admin := UnderSegment(request.path, "/_admin");
            CanBeSent(cfg, request, body) <==>
            && (request.verb == "GET" || admin || !cfg.failClosed)
            && exists p ::
                 Served(cfg, request, body, p)
                 && Holds(p, if admin && request.verb != "GET" then "write" else "read")
  {
    SentIffCleared(cfg, request, body);
    forall p
      ensures Covered(cfg, request, cfg.parse(body), p) <==>
              Holds(p, if request.verb != "GET" && UnderSegment(request.path, "/_admin") then "write" else "read")
    {
      BaseScopeDecides(cfg, request, cfg.parse(body), p);
    }
  }

  /** And for it to be answered 400 instead, given an identified request and a body within the limit. */
  lemma UnclassifiableRejectedIff(
    cfg: Config, request: HttpRequest, p: Principal, body: Received, limits: Limits, now: nat, reply: Option<nat>)
    requires IdentifiedAs(cfg, request, p) && Acceptable(cfg, body)
    requires !Classifiable(cfg.parse(body.bytes))
    ensures Resolve(cfg, request, Some(body), limits, now, reply).Unclassified? <==>
            request.verb != "GET" && !UnderSegment(request.path, "/_admin") && cfg.failClosed
  {
    IdentifiedMeans(cfg, request, p);
    RouteMeans(request.path);
    ClassificationMeans(cfg.parse(body.bytes));
    ReparsingDecidesTheSame(ANONYMOUS, cfg.parse(body.bytes), body.payload, cfg.overrides);
  }

  /** The exact condition for an admin call: write, but read alone when it is a GET. */
  lemma AdminSentIff(cfg: Config, request: HttpRequest, body: Bytes)
    requires UnderSegment(request.path, "/_admin")
    ensures CanBeSent(cfg, request, body) <==>
            exists p ::
              && Served(cfg, request, body, p)
              && ("write" in p.scopes || (request.verb == "GET" && "read" in p.scopes))
  {
    SentIffCleared(cfg, request, body);
    forall p
      ensures Covered(cfg, request, cfg.parse(body), p) <==>
              "write" in p.scopes || (request.verb == "GET" && "read" in p.scopes)
    {
      BaseScopeDecides(cfg, request, cfg.parse(body), p);
    }
  }

  /** The exact condition for a GET: read, whatever its route, its body and the overrides. */
  lemma GetSentIff(cfg: Config, request: HttpRequest, body: Bytes)
    requires request.verb == "GET"
    ensures CanBeSent(cfg, request, body) <==>
            exists p :: Served(cfg, request, body, p) && ("read" in p.scopes || "write" in p.scopes)
  {
    SentIffCleared(cfg, request, body);
    forall p
      ensures Covered(cfg, request, cfg.parse(body), p) <==> "read" in p.scopes || "write" in p.scopes
    {
      BaseScopeDecides(cfg, request, cfg.parse(body), p);
    }
  }

  // --- Requests at which the documented promises fail ----------------------------------------

  /** A gateway that lets anonymous readers in and has the admin upstream configured. */
  function OpenGateway(failClosed: bool, parse: Bytes -> Payload): (cfg: Config)
  {
    Config(Bearer([]), true, failClosed, [], false, 1024, 600, 30, "http://agent", Some("http://admin"), None, parse)
  }

  function Plain(verb: string, path: string): (r: HttpRequest)
  {
    HttpRequest(verb, path, [], None, "10.0.0.5")
  }

  lemma PlainIsAnonymous(failClosed: bool, parse: Bytes -> Payload, verb: string, path: string)
    ensures var cfg, request := OpenGateway(failClosed, parse), Plain(verb, path);
            && IdentifiedAs(cfg, request, ANONYMOUS) && (forall p :: IdentifiedAs(cfg, request, p) ==> p == ANONYMOUS)
            && (!UnderSegment(path, "/_status") ==> Served(cfg, request, [], ANONYMOUS))
  {
    var cfg, request := OpenGateway(failClosed, parse), Plain(verb, path);
    assert AuthenticateRequest(cfg, request) == Ok(ANONYMOUS);
    IdentifiedMeans(cfg, request, ANONYMOUS);
    forall p | IdentifiedAs(cfg, request, p)
      ensures p == ANONYMOUS
    {
      IdentifiedMeans(cfg, request, p);
    }
  }

  /** A body that is not even JSON is sent, with fail-closed off, and by GET with fail-closed on. */
  lemma UnclassifiableIsSent()
    ensures var parse := (b: Bytes) => NotJson("expected value");
            && !Classifiable(parse([]))
            && CanBeSent(OpenGateway(false, parse), Plain("POST", "/"), [])
            && CanBeSent(OpenGateway(true, parse), Plain("GET", "/"), [])
            && !CanBeSent(OpenGateway(true, parse), Plain("POST", "/"), [])
  {
    var parse := (b: Bytes) => NotJson("expected value");
    PlainIsAnonymous(false, parse, "POST", "/");
    PlainIsAnonymous(true, parse, "GET", "/");
    RouteMeans("/");
    UnclassifiableSentIff(OpenGateway(false, parse), Plain("POST", "/"), []);
    UnclassifiableSentIff(OpenGateway(true, parse), Plain("GET", "/"), []);
    UnclassifiableSentIff(OpenGateway(true, parse), Plain("POST", "/"), []);
  }

  /** An admin call by GET is sent for a principal that holds only `read`; by POST it is not. */
  lemma AdminGetIsSentForReader(parse: Bytes -> Payload)
    ensures UnderSegment("/_admin", "/_admin")
    ensures CanBeSent(OpenGateway(true, parse), Plain("GET", "/_admin"), [])
    ensures !CanBeSent(OpenGateway(true, parse), Plain("POST", "/_admin"), [])
  {
    PrefixesExclusive("/_admin");
    PlainIsAnonymous(true, parse, "GET", "/_admin");
    PlainIsAnonymous(true, parse, "POST", "/_admin");
    AdminSentIff(OpenGateway(true, parse), Plain("GET", "/_admin"), []);
    AdminSentIff(OpenGateway(true, parse), Plain("POST", "/_admin"), []);
  }

  /** A GET whose body holds a mutation is sent for a principal that does not cover it. */
  lemma GetCarriesMutation(field: string)
    ensures var op := Operation(None, Mutation, [Field(None, field, [])]);
            var request := Request(Ok(GraphqlDocument([op], map[])), None);
            var parse := (b: Bytes) => Single(request);
            && GetOperation(request.query.value, request.operationName) == Some(op)
            && CanBeSent(OpenGateway(true, parse), Plain("GET", "/"), [])
            && !CoversExecution(ANONYMOUS, op, map[], [])
            && !CanBeSent(OpenGateway(true, parse), Plain("POST", "/"), [])
  {
    var op := Operation(None, Mutation, [Field(None, field, [])]);
    var request := Request(Ok(GraphqlDocument([op], map[])), None);
    var parse := (b: Bytes) => Single(request);
    var cfg := OpenGateway(true, parse);
    PlainIsAnonymous(true, parse, "GET", "/");
    PlainIsAnonymous(true, parse, "POST", "/");
    RouteMeans("/");
    GetSentIff(cfg, Plain("GET", "/"), []);
    var payload := cfg.parse([]);
    assert Carries(payload, request) && Usable(request) && forall x :: Carries(payload, x) ==> x == request;
    assert [op][0] in request.query.value.operations && Selected(request, op);
    ClassifiedSentIff(cfg, Plain("POST", "/"), []);
  }
}
